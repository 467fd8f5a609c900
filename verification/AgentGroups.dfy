/** Merging the findings of Jenkins agents that share a pool and a kind of trouble.
    Models group_agent_findings and _merge_group in src/jenkins_watchdog/checks/agent_utils.py. */
module AgentGroups {
  import opened Sequences
  import opened Strings
  import opened Grouping
  import opened Findings

  const MIN_GROUP_SIZE := 2
  const SAMPLE_SIZE := 5

  /** str.lower, str.strip's notion of blank, the two expressions that cut pod suffixes off, and the
      normalisation of a symptom to its class. */
  datatype Rules = Rules(lower: string -> string, isSpace: char -> bool,
                         cutSuffixes: string -> string, symptomClass: string -> string)

  type Key = (string, string, string)

  function PrefixOf(resource: string, rules: Rules): string {
    if '/' !in resource then rules.lower(resource)
    else rules.cutSuffixes(rules.lower(After(resource, '/')))
  }

  /** The key of an agent finding that is not yet a merged one; other findings have none. */
  function KeyOf(d: Data, rules: Rules): Option<Key> {
    if d.category == "jenkins_agent" && !d.context.grouped
    then Some((PrefixOf(d.resource, rules), rules.symptomClass(d.symptom), d.severity))
    else None
  }

  function KeysOf(ds: seq<Data>, rules: Rules): (keys: seq<Option<Key>>)
    ensures |keys| == |ds| && forall i | 0 <= i < |ds| :: keys[i] == KeyOf(ds[i], rules)
  {
    seq(|ds|, i requires 0 <= i < |ds| => KeyOf(ds[i], rules))
  }

  predicate IsGroup(g: seq<nat>) {
    |g| >= MIN_GROUP_SIZE
  }

  function Groups(ds: seq<Data>, rules: Rules): seq<seq<nat>> {
    Partition(KeysOf(ds, rules), IsGroup)
  }

  function Resources(members: seq<Data>): (rs: seq<string>)
    ensures |rs| == |members| && forall i | 0 <= i < |members| :: rs[i] == members[i].resource
  {
    seq(|members|, i requires 0 <= i < |members| => members[i].resource)
  }

  function MergedSymptom(count: nat, prefix: string, primary: Data, rules: Rules): string {
    var base := Strip(Before(primary.symptom, '('), rules.isSpace);
    if count == 1 then base
    else if Contains(rules.lower(base), "offline") then
      var reason := primary.context.offlineReason;
      Decimal(count) + " " + prefix + " agents offline" + (if reason == "" then "" else ": " + reason)
    else Decimal(count) + " " + prefix + " agents: " + base
  }

  function MergedContext(context: Context, members: seq<Data>): Context {
    var agents := Resources(members);
    context.(grouped := true, groupSize := |members|, affectedAgents := agents,
             sampleAgents := agents[..if |agents| < SAMPLE_SIZE then |agents| else SAMPLE_SIZE])
  }

  /** The member with the greatest severity, the first one of several. */
  function Primary(members: seq<Data>): nat
    requires members != []
    ensures Primary(members) < |members|
  {
    FirstMax(Upto(|members|), (i: nat) => if i < |members| then SeverityWeight(members[i].severity) else 0)
  }

  /** The finding that stands for a group of agent findings. */
  function MergeGroup(prefix: string, members: seq<Data>, rules: Rules): Data
    requires members != []
  {
    var primary := members[Primary(members)];
    Data(primary.severity, primary.category, Before(primary.resource, '/') + "/" + prefix,
         MergedSymptom(|members|, prefix, primary, rules),
         MergedContext(primary.context, members))
  }

  /** What a group becomes: a single finding stays what it is. */
  function Output(ds: seq<Data>, g: seq<nat>, rules: Rules): Data
    requires g != [] && forall i | 0 <= i < |g| :: g[i] < |ds|
  {
    if IsGroup(g) then MergeGroup(PrefixOf(ds[g[0]].resource, rules), Pick(ds, g), rules) else ds[g[0]]
  }

  function Outputs(ds: seq<Data>, groups: seq<seq<nat>>, rules: Rules): (out: seq<Data>)
    requires Within(groups, |ds|)
    ensures |out| == |groups| && forall a | 0 <= a < |groups| :: out[a] == Output(ds, groups[a], rules)
  {
    seq(|groups|, a requires 0 <= a < |groups| => Output(ds, groups[a], rules))
  }

  /** A group has members; those of a group of several are agent findings with the same key. */
  lemma GroupMembers(ds: seq<Data>, rules: Rules, a: nat)
    requires a < |Groups(ds, rules)|
    ensures var g := Groups(ds, rules)[a];
            && g != [] && (forall i | 0 <= i < |g| :: g[i] < |ds|)
            && (forall i, j | 0 <= i < j < |g| :: g[i] < g[j])
            && (IsGroup(g) ==> forall i | 0 <= i < |g| ::
                  KeyOf(ds[g[i]], rules).Some? && KeyOf(ds[g[i]], rules) == KeyOf(ds[g[0]], rules))
  {
    PartitionShape(KeysOf(ds, rules), IsGroup, a);
  }

  lemma GroupsWithin(ds: seq<Data>, rules: Rules)
    ensures Within(Groups(ds, rules), |ds|)
  {
    forall a | 0 <= a < |Groups(ds, rules)|
      ensures var g := Groups(ds, rules)[a]; g != [] && forall i | 0 <= i < |g| :: g[i] < |ds|
    {
      GroupMembers(ds, rules, a);
    }
  }

  function GroupAgents(ds: seq<Data>, rules: Rules): (out: seq<Data>)
  {
    GroupsWithin(ds, rules);
    Outputs(ds, Groups(ds, rules), rules)
  }

  lemma GroupsPartition(ds: seq<Data>, rules: Rules)
    ensures IsPartition(Groups(ds, rules), |ds|)
  {
    PartitionIsComplete(KeysOf(ds, rules), IsGroup);
  }

  // ---------------------------------------------------------------- every agent is accounted for

  /** The resources a finding speaks for. */
  function SpeaksFor(d: Data): seq<string> {
    if d.context.grouped then d.context.affectedAgents else [d.resource]
  }

  function AllResources(ds: seq<Data>): (parts: seq<seq<string>>)
    ensures |parts| == |ds| && forall i | 0 <= i < |ds| :: parts[i] == SpeaksFor(ds[i])
  {
    seq(|ds|, i requires 0 <= i < |ds| => SpeaksFor(ds[i]))
  }

  function Spoken(ds: seq<Data>): seq<string> {
    Gather(AllResources(ds), Upto(|ds|))
  }

  lemma {:induction false} GatherResources(ds: seq<Data>, g: seq<nat>)
    requires forall i | 0 <= i < |g| :: g[i] < |ds| && !ds[g[i]].context.grouped
    ensures Gather(AllResources(ds), g) == Resources(Pick(ds, g))
  {
    if g != [] {
      GatherResources(ds, g[1..]);
      assert Resources(Pick(ds, g)) == [ds[g[0]].resource] + Resources(Pick(ds, g[1..]));
    }
  }

  lemma OutputSpeaks(ds: seq<Data>, rules: Rules, a: nat)
    requires a < |Groups(ds, rules)|
    ensures var g := Groups(ds, rules)[a];
            && g != [] && (forall i | 0 <= i < |g| :: g[i] < |ds|)
            && SpeaksFor(Output(ds, g, rules)) == Gather(AllResources(ds), g)
  {
    GroupMembers(ds, rules, a);
    var g := Groups(ds, rules)[a];
    if IsGroup(g) {
      GatherResources(ds, g);
    } else {
      assert g[1..] == [];
    }
  }

  lemma {:induction false} SpokenOfOutputs(ds: seq<Data>, rules: Rules, groups: seq<seq<nat>>)
    requires Within(groups, |ds|)
    requires forall a | 0 <= a < |groups| ::
               SpeaksFor(Output(ds, groups[a], rules)) == Gather(AllResources(ds), groups[a])
    ensures forall i | 0 <= i < |Positions(groups)| :: Positions(groups)[i] < |ds|
    ensures Flatten(AllResources(Outputs(ds, groups, rules))) == Gather(AllResources(ds), Positions(groups))
  {
    if groups != [] {
      var rest := groups[1..];
      assert forall a | 0 <= a < |rest| :: rest[a] == groups[a + 1];
      SpokenOfOutputs(ds, rules, rest);
      GatherJoin(AllResources(ds), groups[0], Positions(rest));
      assert AllResources(Outputs(ds, groups, rules))[1..] == AllResources(Outputs(ds, rest, rules));
    }
  }

  lemma {:induction false} FlatIsGather(parts: seq<seq<string>>, n: nat)
    requires n <= |parts|
    ensures Flatten(parts[..n]) == Gather(parts, Upto(n))
  {
    if n > 0 {
      var last: nat := n - 1;
      FlatIsGather(parts, last);
      assert Upto(n) == Upto(last) + [last];
      GatherJoin(parts, Upto(last), [last]);
      assert Gather(parts, [last]) == parts[last] + Gather(parts, [last][1..]);
      assert parts[..n] == parts[..last] + [parts[last]];
      FlattenJoin(parts[..last], [parts[last]]);
    }
  }

  /** Grouping loses and invents no agent: the resources that the findings speak for, counted with
      repetition, are the same before and after. */
  lemma GroupingKeepsAgents(ds: seq<Data>, rules: Rules)
    ensures multiset(Spoken(GroupAgents(ds, rules))) == multiset(Spoken(ds))
  {
    var groups, parts := Groups(ds, rules), AllResources(ds);
    GroupsWithin(ds, rules);
    forall a | 0 <= a < |groups|
      ensures SpeaksFor(Output(ds, groups[a], rules)) == Gather(parts, groups[a])
    {
      OutputSpeaks(ds, rules, a);
    }
    SpokenOfOutputs(ds, rules, groups);
    PartitionIsComplete(KeysOf(ds, rules), IsGroup);
    GatherPermuted(parts, Positions(groups), Upto(|ds|));
    var out := AllResources(GroupAgents(ds, rules));
    FlatIsGather(out, |out|);
    assert out[..|out|] == out;
  }

  /** What is no finding about an agent comes out as it is, and comes from nothing else. */
  lemma OthersPass(ds: seq<Data>, rules: Rules, d: Data)
    requires d.category != "jenkins_agent"
    ensures d in GroupAgents(ds, rules) <==> d in ds
  {
    hide PrefixOf, MergedSymptom, MergedContext, Groups, Partition;
    var groups, out, keys := Groups(ds, rules), GroupAgents(ds, rules), KeysOf(ds, rules);
    if i: nat :| i < |ds| && ds[i] == d {
      var a := LooseIsGroup(keys, IsGroup, i);
      GroupsIs(ds, rules);
      assert out[a] == ds[i];
    }
    if a: nat :| a < |out| && out[a] == d {
      GroupMembers(ds, rules, a);
      assert !IsGroup(groups[a]);
      assert ds[groups[a][0]] == d;
    }
  }

  /** Without any key, the findings come out as they are. */
  lemma NoGroups(ds: seq<Data>, rules: Rules)
    requires forall i | 0 <= i < |ds| :: KeyOf(ds[i], rules).None?
    ensures GroupAgents(ds, rules) == ds
  {
    hide KeyOf;
    AllLoose(KeysOf(ds, rules), |ds|);
    var groups := Groups(ds, rules);
    assert groups == Singles(Upto(|ds|));
    forall a | 0 <= a < |ds|
      ensures groups[a] == [a]
    {
      assert Upto(|ds|)[a] == a;
    }
  }

  lemma GroupsIs(ds: seq<Data>, rules: Rules)
    ensures Groups(ds, rules) == Partition(KeysOf(ds, rules), IsGroup)
  {
  }

  /** The pool that a resource names: what comes after its first slash, or all of it if it has none. */
  predicate IsPool(pool: string, resource: string, rules: Rules) {
    if '/' in resource then
      exists k | 0 <= k < |resource| :: FirstAt(resource, k, '/') && pool == rules.cutSuffixes(rules.lower(resource[k + 1..]))
    else pool == rules.lower(resource)
  }

  lemma PrefixIsPool(resource: string, rules: Rules, pool: string)
    ensures IsPool(pool, resource, rules) <==> pool == PrefixOf(resource, rules)
  {
    if '/' in resource {
      var k := AfterIsRest(resource, '/');
      assert IsPool(PrefixOf(resource, rules), resource, rules);
    }
  }

  /** Two findings are merged exactly if they are ungrouped findings about agents of one pool, with the same
      class of symptom and the same severity. */
  lemma MergedExactly(ds: seq<Data>, rules: Rules, i: nat, j: nat)
    requires i < |ds| && j < |ds| && i != j
    ensures (exists a | 0 <= a < |Groups(ds, rules)| :: i in Groups(ds, rules)[a] && j in Groups(ds, rules)[a])
            <==> && ds[i].category == ds[j].category == "jenkins_agent"
                 && !ds[i].context.grouped && !ds[j].context.grouped
                 && ds[i].severity == ds[j].severity
                 && rules.symptomClass(ds[i].symptom) == rules.symptomClass(ds[j].symptom)
                 && exists pool :: IsPool(pool, ds[i].resource, rules) && IsPool(pool, ds[j].resource, rules)
  {
    hide PrefixOf, Groups, IsPool;
    MergedByKey(ds, rules, i, j);
    PrefixIsPool(ds[i].resource, rules, PrefixOf(ds[i].resource, rules));
    PrefixIsPool(ds[j].resource, rules, PrefixOf(ds[j].resource, rules));
    if pool :| IsPool(pool, ds[i].resource, rules) && IsPool(pool, ds[j].resource, rules) {
      PrefixIsPool(ds[i].resource, rules, pool);
      PrefixIsPool(ds[j].resource, rules, pool);
    }
  }

  lemma MergedByKey(ds: seq<Data>, rules: Rules, i: nat, j: nat)
    requires i < |ds| && j < |ds| && i != j
    ensures (exists a | 0 <= a < |Groups(ds, rules)| :: i in Groups(ds, rules)[a] && j in Groups(ds, rules)[a])
            <==> KeyOf(ds[i], rules).Some? && KeyOf(ds[i], rules) == KeyOf(ds[j], rules)
  {
    hide KeyOf, Partition, Entries;
    var keys := KeysOf(ds, rules);
    SameGroupExactly(keys, IsGroup, i, j);
    if keys[i].Some? && keys[i] == keys[j] {
      var e := EntryOf(keys, |keys|, i);
      EntryIsClass(keys, e, j);
      TwoMembers(Entries(keys, |keys|)[e].1, i, j);
      assert Entries(keys, |keys|)[e].0 == keys[i].value && IsGroup(Entries(keys, |keys|)[e].1);
      assert Groups(ds, rules) == Partition(keys, IsGroup);
    }
  }

  lemma TwoMembers(g: seq<nat>, i: nat, j: nat)
    requires i in g && j in g && i != j
    ensures |g| >= 2
  {
  }

  function Take5(agents: seq<string>): (r: seq<string>)
    ensures r <= agents && |r| == if |agents| < 5 then |agents| else 5
  {
    if |agents| < 5 then agents else agents[..5]
  }

  /** The sizes of the merged groups and the findings left alone add up to the findings that came in;
      a merged finding lists as many agents as its size says, in the order in which they came, and the
      first five as samples; it has the severity that all of them have. */
  lemma GroupSizesAddUp(ds: seq<Data>, rules: Rules)
    ensures TotalSize(Groups(ds, rules)) == |ds| && |GroupAgents(ds, rules)| == |Groups(ds, rules)|
    ensures forall a | 0 <= a < |Groups(ds, rules)| && IsGroup(Groups(ds, rules)[a]) ::
              var g, out := Groups(ds, rules)[a], GroupAgents(ds, rules)[a];
              && out.context.groupSize == |out.context.affectedAgents| == |g|
              && out.context.sampleAgents == Take5(out.context.affectedAgents)
              && forall i | 0 <= i < |g| ::
                   && g[i] < |ds| && out.context.affectedAgents[i] == ds[g[i]].resource
                   && out.severity == ds[g[i]].severity
  {
    hide MergedSymptom, PrefixOf, Primary;
    GroupsPartition(ds, rules);
    PositionsSize(Groups(ds, rules));
    assert |multiset(Positions(Groups(ds, rules)))| == |multiset(Upto(|ds|))|;
    forall a | 0 <= a < |Groups(ds, rules)| && IsGroup(Groups(ds, rules)[a])
      ensures var g, out := Groups(ds, rules)[a], GroupAgents(ds, rules)[a];
              && out.context.groupSize == |out.context.affectedAgents| == |g|
              && out.context.sampleAgents == Take5(out.context.affectedAgents)
              && forall i | 0 <= i < |g| ::
                   && g[i] < |ds| && out.context.affectedAgents[i] == ds[g[i]].resource
                   && out.severity == ds[g[i]].severity
    {
      GroupMembers(ds, rules, a);
    }
  }

  /** How a merged finding's symptom reads: how many agents of which pool are offline, and why; or what they
      have, which is what the first one's symptom says before its parenthesis. */
  ghost predicate ReadsMerged(symptom: string, count: nat, pool: string, first: Data, rules: Rules) {
    exists base, said :: IsFirstPart(said, first.symptom, '(') && IsStripped(base, said, rules.isSpace)
      && if IsPart("offline", rules.lower(base)) then
           if first.context.offlineReason == "" then symptom == Decimal(count) + " " + pool + " agents offline"
           else symptom == Decimal(count) + " " + pool + " agents offline: " + first.context.offlineReason
         else symptom == Decimal(count) + " " + pool + " agents: " + base
  }

  /** What stands for several agents: the first one's finding, with the pool for its resource's own part, and
      with a symptom and entries that tell of all. */
  lemma MergedIsTold(ds: seq<Data>, rules: Rules, a: nat)
    ensures Within(Groups(ds, rules), |ds|)
    ensures a < |Groups(ds, rules)| && |Groups(ds, rules)[a]| >= 2 ==>
              var g, out := Groups(ds, rules)[a], GroupAgents(ds, rules)[a];
              var first := ds[g[0]];
              && out.severity == first.severity && out.category == "jenkins_agent"
              && (exists namespace, pool ::
                    && IsFirstPart(namespace, first.resource, '/') && IsPool(pool, first.resource, rules)
                    && out.resource == namespace + "/" + pool
                    && ReadsMerged(out.symptom, |g|, pool, first, rules))
              && out.context == first.context.(grouped := true, groupSize := |g|,
                   affectedAgents := out.context.affectedAgents, sampleAgents := out.context.sampleAgents)
  {
    hide PrefixOf, MergedSymptom, ReadsMerged, IsPool, IsFirstPart, Groups;
    GroupsWithin(ds, rules);
    if a < |Groups(ds, rules)| && |Groups(ds, rules)[a]| >= 2 {
      GroupMembers(ds, rules, a);
      var g := Groups(ds, rules)[a];
      var first := ds[g[0]];
      var pool, namespace := PrefixOf(first.resource, rules), Before(first.resource, '/');
      FirstIsPrimary(Pick(ds, g));
      PrefixIsPool(first.resource, rules, pool);
      FirstPart(first.resource, '/', namespace);
      SymptomReads(|g|, pool, first, rules);
    }
  }

  lemma FirstIsPrimary(members: seq<Data>)
    requires members != [] && forall i | 0 <= i < |members| :: members[i].severity == members[0].severity
    ensures Primary(members) == 0
  {
    assert Upto(|members|)[0] == 0;
  }

  lemma SymptomReads(count: nat, pool: string, first: Data, rules: Rules)
    requires count >= 2
    ensures ReadsMerged(MergedSymptom(count, pool, first, rules), count, pool, first, rules)
  {
    hide Decimal, Strip, IsStripped, IsPart, Contains;
    var said := Before(first.symptom, '(');
    var base := Strip(said, rules.isSpace);
    FirstPart(first.symptom, '(', said);
    StripIsStripped(said, rules.isSpace);
    PartIsContained("offline", rules.lower(base));
    var start, reason := Decimal(count) + " " + pool, first.context.offlineReason;
    OfflineReads(start, reason);
  }

  lemma OfflineReads(start: string, reason: string)
    ensures start + " agents offline" + (": " + reason) == start + " agents offline: " + reason
    ensures start + " agents offline" + "" == start + " agents offline"
  {
    assert " agents offline" + ": " == " agents offline: ";
    Regroup(start, " agents offline", ": ", " agents offline: ", reason);
  }

  lemma Regroup(a: string, b: string, c: string, both: string, d: string)
    requires b + c == both
    ensures a + b + (c + d) == a + both + d
  {
  }

  // ---------------------------------------------------------------- a second pass changes nothing

  /** No two findings that could be merged have the same key. */
  predicate Settled(ds: seq<Data>, rules: Rules) {
    forall i, j | 0 <= i < j < |ds| && KeyOf(ds[i], rules).Some? :: KeyOf(ds[i], rules) != KeyOf(ds[j], rules)
  }

  lemma GroupingSettles(ds: seq<Data>, rules: Rules)
    ensures Settled(GroupAgents(ds, rules), rules)
  {
    var out := GroupAgents(ds, rules);
    forall i, j | 0 <= i < j < |out| && KeyOf(out[i], rules).Some?
      ensures KeyOf(out[i], rules) != KeyOf(out[j], rules)
    {
      PartitionKeysDiffer(KeysOf(ds, rules), IsGroup, i, j);
    }
  }

  lemma PairIsUnsettled(ds: seq<Data>, rules: Rules, a: nat)
    requires a < |Groups(ds, rules)| && IsGroup(Groups(ds, rules)[a])
    ensures !Settled(ds, rules)
  {
    GroupMembers(ds, rules, a);
    var g := Groups(ds, rules)[a];
    assert KeyOf(ds[g[0]], rules) == KeyOf(ds[g[1]], rules);
  }

  lemma SettledSingle(ds: seq<Data>, rules: Rules, a: nat)
    requires Settled(ds, rules) && a < |Groups(ds, rules)|
    ensures |Groups(ds, rules)[a]| == 1
  {
    GroupMembers(ds, rules, a);
    if IsGroup(Groups(ds, rules)[a]) {
      PairIsUnsettled(ds, rules, a);
    }
  }

  /** Settled findings come out of the pass unchanged, in another order. */
  lemma SettledIsPermuted(ds: seq<Data>, rules: Rules)
    requires Settled(ds, rules)
    ensures multiset(GroupAgents(ds, rules)) == multiset(ds)
  {
    var groups := Groups(ds, rules);
    GroupsWithin(ds, rules);
    forall a | 0 <= a < |groups|
      ensures |groups[a]| == 1
    {
      SettledSingle(ds, rules, a);
    }
    PartitionIsComplete(KeysOf(ds, rules), IsGroup);
    SinglesPermute(ds, groups, rules);
    PickPermuted(ds, Positions(groups), Upto(|ds|));
    assert Pick(ds, Upto(|ds|)) == ds;
  }

  lemma {:induction false} PositionsOfOnes(groups: seq<seq<nat>>)
    requires forall a | 0 <= a < |groups| :: |groups[a]| == 1
    ensures |Positions(groups)| == |groups| && forall a | 0 <= a < |groups| :: Positions(groups)[a] == groups[a][0]
  {
    if groups != [] {
      PositionsOfOnes(groups[1..]);
    }
  }

  lemma SinglesPermute(ds: seq<Data>, groups: seq<seq<nat>>, rules: Rules)
    requires Within(groups, |ds|) && forall a | 0 <= a < |groups| :: |groups[a]| == 1
    ensures forall i | 0 <= i < |Positions(groups)| :: Positions(groups)[i] < |ds|
    ensures Outputs(ds, groups, rules) == Pick(ds, Positions(groups))
  {
    hide MergeGroup, Positions;
    PositionsOfOnes(groups);
  }

  /** A later selection of findings in which at most the note on other symptoms has changed. */
  predicate SelectedFrom(later: seq<Data>, earlier: seq<Data>, picks: seq<nat>) {
    && |picks| == |later|
    && (forall i, j | 0 <= i < j < |picks| :: picks[i] != picks[j])
    && (forall i | 0 <= i < |later| ::
          && picks[i] < |earlier|
          && later[i] == earlier[picks[i]].(
               context := earlier[picks[i]].context.(alsoSeen := later[i].context.alsoSeen)))
  }

  /** After one pass, whatever is filtered, reordered, or noted on other symptoms, a second pass
      merges nothing: its result is a permutation of its input. */
  lemma SecondPassMergesNothing(ds: seq<Data>, later: seq<Data>, picks: seq<nat>, rules: Rules)
    requires SelectedFrom(later, GroupAgents(ds, rules), picks)
    ensures Settled(later, rules)
    ensures multiset(GroupAgents(later, rules)) == multiset(later)
  {
    var first := GroupAgents(ds, rules);
    GroupingSettles(ds, rules);
    forall i, j | 0 <= i < j < |later| && KeyOf(later[i], rules).Some?
      ensures KeyOf(later[i], rules) != KeyOf(later[j], rules)
    {
      assert KeyOf(later[i], rules) == KeyOf(first[picks[i]], rules);
      assert KeyOf(later[j], rules) == KeyOf(first[picks[j]], rules);
      assert picks[i] != picks[j];
    }
    SettledIsPermuted(later, rules);
  }

  // ---------------------------------------------------------------- the pass over objects

  /** A copy of the group's primary, rewritten to stand for the whole group. */
  method MergeGroupOf(prefix: string, group: seq<Finding>, rules: Rules) returns (merged: Finding)
    requires group != []
    ensures fresh(merged) && merged.View() == MergeGroup(prefix, Views(group), rules)
  {
    hide MergedSymptom, Before, PrefixOf, Primary, MergedContext;
    var views := Views(group);
    var primary := group[Primary(views)];
    merged := new Finding(primary.View());
    merged.resource := Before(primary.resource, '/') + "/" + prefix;
    merged.context := MergedContext(primary.context, views);
    merged.symptom := MergedSymptom(|group|, prefix, primary.View(), rules);
  }

  /** The first two loops: the agent findings by key, the others aside. */
  method CollectAgents(fs: seq<Finding>, rules: Rules) returns (others: seq<Finding>, groups: seq<(Key, seq<Finding>)>)
    ensures var keys := KeysOf(Views(fs), rules);
            && (forall k | 0 <= k < |Loose(keys, |fs|)| :: Loose(keys, |fs|)[k] < |fs|)
            && others == Pick(fs, Loose(keys, |fs|))
            && PositionsBelow(Entries(keys, |fs|), |fs|)
            && groups == Named(Entries(keys, |fs|), fs)
  {
    hide KeyOf;
    ghost var keys := KeysOf(Views(fs), rules);
    others, groups := [], [];
    for i := 0 to |fs|
      invariant forall k | 0 <= k < |Loose(keys, i)| :: Loose(keys, i)[k] < |fs|
      invariant others == Pick(fs, Loose(keys, i))
      invariant PositionsBelow(Entries(keys, i), |fs|)
      invariant groups == Named(Entries(keys, i), fs)
    {
      var f := fs[i];
      var key := KeyOf(f.View(), rules);
      assert keys[i] == key;
      if key.None? {
        others := others + [f];
      } else {
        NamedAppend(Entries(keys, i), key.value, i, fs);
        groups := Append(groups, key.value, f);
      }
    }
  }

  /** Findings that are not merged are the same objects as before. */
  predicate KeepsSingles(out: seq<Finding>, fs: seq<Finding>, groups: seq<seq<nat>>)
    requires Within(groups, |fs|)
  {
    |out| == |groups| && forall a | 0 <= a < |groups| && !IsGroup(groups[a]) :: out[a] == fs[groups[a][0]]
  }

  /** What has been put out for the first e lists. */
  ghost predicate PutOut(merged: seq<Finding>, fs: seq<Finding>, ds: seq<Data>, lists: seq<seq<nat>>, e: nat,
                         rules: Rules)
    reads merged
    requires Within(lists, |ds|) && |ds| == |fs|
  {
    && |merged| == e <= |lists|
    && (forall a | 0 <= a < e :: merged[a].View() == Output(ds, lists[a], rules))
    && (forall a | 0 <= a < e && !IsGroup(lists[a]) :: merged[a] == fs[lists[a][0]])
    && (forall a, b | 0 <= a < b < e && IsGroup(lists[a]) && IsGroup(lists[b]) :: merged[a] != merged[b])
  }

  predicate AllIn(merged: seq<Finding>, lists: seq<seq<nat>>, objects: set<Finding>) {
    forall a | 0 <= a < |merged| && a < |lists| && IsGroup(lists[a]) :: merged[a] in objects
  }

  lemma PutOutNext(merged: seq<Finding>, fs: seq<Finding>, ds: seq<Data>, lists: seq<seq<nat>>, e: nat, m: Finding,
                   made: set<Finding>, rules: Rules)
    requires Within(lists, |ds|) && |ds| == |fs| && e < |lists|
    requires PutOut(merged, fs, ds, lists, e, rules) && AllIn(merged, lists, made)
    requires m.View() == Output(ds, lists[e], rules)
    requires if IsGroup(lists[e]) then m !in made else m == fs[lists[e][0]]
    ensures PutOut(merged + [m], fs, ds, lists, e + 1, rules)
    ensures AllIn(merged + [m], lists, if IsGroup(lists[e]) then made + {m} else made)
  {
    hide Output, IsGroup;
  }

  /** The last loop: a group of several becomes a new finding, a single finding stays. */
  method MergeAgents(ghost fs: seq<Finding>, groups: seq<(Key, seq<Finding>)>, ghost lists: seq<seq<nat>>, rules: Rules)
      returns (merged: seq<Finding>, ghost made: set<Finding>)
    requires Within(lists, |fs|) && |groups| == |lists|
    requires forall e | 0 <= e < |lists| :: groups[e].1 == Pick(fs, lists[e])
    ensures PutOut(merged, fs, Views(fs), lists, |lists|, rules)
    ensures fresh(made) && AllIn(merged, lists, made)
  {
    hide MergeGroup, PrefixOf, PutOut, AllIn;
    merged := [];
    ghost var ds := Views(fs);
    made := {};
    NothingPutOut(fs, ds, lists, rules);
    for e := 0 to |groups|
      invariant PutOut(merged, fs, ds, lists, e, rules)
      invariant fresh(made) && AllIn(merged, lists, made)
    {
      var group := groups[e].1;
      if |group| < MIN_GROUP_SIZE {
        assert group == [group[0]];
        PutOutNext(merged, fs, ds, lists, e, group[0], made, rules);
        merged := merged + group;
      } else {
        var m := MergeGroupOf(PrefixOf(group[0].resource, rules), group, rules);
        assert Views(group) == Pick(ds, lists[e]);
        PutOutNext(merged, fs, ds, lists, e, m, made, rules);
        made := made + {m};
        merged := merged + [m];
      }
    }
  }

  lemma NothingPutOut(fs: seq<Finding>, ds: seq<Data>, lists: seq<seq<nat>>, rules: Rules)
    requires Within(lists, |ds|) && |ds| == |fs|
    ensures PutOut([], fs, ds, lists, 0, rules) && AllIn([], lists, {})
  {
  }

  /** Where the groups of the pass come from. */
  lemma Layout(ds: seq<Data>, rules: Rules)
    ensures Groups(ds, rules)
         == Singles(Loose(KeysOf(ds, rules), |ds|)) + Lists(Entries(KeysOf(ds, rules), |ds|))
    ensures Within(Groups(ds, rules), |ds|) && Within(Lists(Entries(KeysOf(ds, rules), |ds|)), |ds|)
  {
    GroupsWithin(ds, rules);
    PartitionWhole(KeysOf(ds, rules), IsGroup);
    LaterWithin(Singles(Loose(KeysOf(ds, rules), |ds|)), Lists(Entries(KeysOf(ds, rules), |ds|)), |ds|);
  }

  lemma LaterWithin(a: seq<seq<nat>>, b: seq<seq<nat>>, n: nat)
    requires Within(a + b, n)
    ensures Within(a, n) && Within(b, n)
  {
    assert forall k | 0 <= k < |a| :: a[k] == (a + b)[k];
    assert forall k | 0 <= k < |b| :: b[k] == (a + b)[|a| + k];
  }

  /** Two groups of the pass do not start at the same position. */
  lemma FirstsDiffer(ds: seq<Data>, rules: Rules, a: nat, b: nat)
    requires a < b < |Groups(ds, rules)|
    ensures var g := Groups(ds, rules); g[a] != [] && g[b] != [] && g[a][0] != g[b][0]
  {
    var groups := Groups(ds, rules);
    GroupMembers(ds, rules, a);
    GroupMembers(ds, rules, b);
    GroupsPartition(ds, rules);
    if groups[a][0] == groups[b][0] {
      PartitionDisjoint(groups, |ds|, a, b, groups[a][0]);
    }
  }

  /** The findings put aside and the merged ones, together. */
  lemma Joined(fs: seq<Finding>, merged: seq<Finding>, made: set<Finding>, ds: seq<Data>,
               loose: seq<nat>, lists: seq<seq<nat>>, rules: Rules)
    requires ds == Views(fs) && (forall k | 0 <= k < |loose| :: loose[k] < |fs|) && Within(lists, |ds|)
    requires PutOut(merged, fs, ds, lists, |lists|, rules) && AllIn(merged, lists, made)
    ensures PutOut(Pick(fs, loose) + merged, fs, ds, Singles(loose) + lists, |loose| + |lists|, rules)
    ensures AllIn(Pick(fs, loose) + merged, Singles(loose) + lists, made)
  {
    hide MergeGroup, PrefixOf;
  }

  lemma PutOutIsDistinct(fs: seq<Finding>, out: seq<Finding>, made: set<Finding>, ds: seq<Data>, rules: Rules)
    requires ds == Views(fs) && Distinct(fs) && Within(Groups(ds, rules), |ds|)
    requires PutOut(out, fs, ds, Groups(ds, rules), |Groups(ds, rules)|, rules) && AllIn(out, Groups(ds, rules), made)
    requires forall f | f in fs :: f !in made
    ensures Distinct(out) && forall a | 0 <= a < |out| :: out[a] in fs || out[a] in made
    ensures Views(out) == GroupAgents(ds, rules) && KeepsSingles(out, fs, Groups(ds, rules))
  {
    hide Groups, Output;
    forall a, b | 0 <= a < b < |out|
      ensures out[a] != out[b]
    {
      FirstsDiffer(ds, rules, a, b);
    }
  }

  /** The findings of the pass: those that are not merged are the same objects as before, the others
      are new ones, and no two are the same. */
  method GroupAgentFindings(fs: seq<Finding>, rules: Rules) returns (out: seq<Finding>)
    requires Distinct(fs)
    ensures Views(out) == GroupAgents(Views(fs), rules)
    ensures Within(Groups(Views(fs), rules), |fs|) && KeepsSingles(out, fs, Groups(Views(fs), rules))
    ensures forall a | 0 <= a < |out| :: out[a] in fs || fresh(out[a])
    ensures Distinct(out)
  {
    hide *;
    ghost var ds := Views(fs);
    Layout(ds, rules);
    var others, groups := CollectAgents(fs, rules);
    ghost var loose, lists := Loose(KeysOf(ds, rules), |fs|), Lists(Entries(KeysOf(ds, rules), |fs|));
    var merged, made := MergeAgents(fs, groups, lists, rules);
    Joined(fs, merged, made, ds, loose, lists, rules);
    out := others + merged;
    PutOutIsDistinct(fs, out, made, ds, rules);
  }
}
