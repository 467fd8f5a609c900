/** The findings on their way from the health checks to the comparison with the last run: grouped,
    filtered, deduplicated, correlated. Models the end of run_all_checks in
    src/jenkins_watchdog/checks/registry.py, and what _run_scan_background in
    src/jenkins_watchdog/api/router.py does next (lines 337-353). */
module Pipeline {
  import opened Sequences
  import opened Strings
  import opened Findings
  import opened Grouping
  import AgentGroups
  import Dedup
  import Correlation

  datatype Config = Config(rules: AgentGroups.Rules, cutSuffixes: string -> string, id: Identity)

  /** The positions, among the first n, of the findings that are not dismissed. */
  function Open(ds: seq<Data>, dismissed: set<string>, n: nat, id: Identity): (picks: seq<nat>)
    requires n <= |ds|
    ensures forall k | 0 <= k < |picks| :: picks[k] < n && Fingerprint(ds[picks[k]], id) !in dismissed
    ensures forall k, l | 0 <= k < l < |picks| :: picks[k] < picks[l]
  {
    if n == 0 then []
    else if Fingerprint(ds[n - 1], id) in dismissed then Open(ds, dismissed, n - 1, id)
    else Open(ds, dismissed, n - 1, id) + [n - 1]
  }

  /** The filter keeps exactly the findings that are not dismissed. */
  lemma {:induction false} OpenIsExact(ds: seq<Data>, dismissed: set<string>, n: nat, id: Identity, i: nat)
    requires n <= |ds|
    ensures i in Open(ds, dismissed, n, id) <==> i < n && Fingerprint(ds[i], id) !in dismissed
  {
    hide Fingerprint;
    if n > 0 {
      var before, mark := Open(ds, dismissed, n - 1, id), Fingerprint(ds[n - 1], id);
      OpenIsExact(ds, dismissed, n - 1, id, i);
      assert Open(ds, dismissed, n, id) == before + if mark in dismissed then [] else [n - 1];
    }
  }

  function Undismissed(ds: seq<Data>, dismissed: set<string>, id: Identity): seq<Data> {
    Pick(ds, Open(ds, dismissed, |ds|, id))
  }

  /** What the correlation gets to see. */
  function Deduplicated(ds: seq<Data>, dismissed: set<string>, c: Config): seq<Data> {
    Dedup.Deduplicate(Undismissed(AgentGroups.GroupAgents(ds, c.rules), dismissed, c.id), c.cutSuffixes)
  }

  function Reduced(ds: seq<Data>, dismissed: set<string>, c: Config): Correlation.Attempt<seq<Data>> {
    Correlation.Correlate(Deduplicated(ds, dismissed, c), c.rules, c.id)
  }

  /** The passes, one after the other, over the objects that the checks have made. */
  method Reduce(fs: seq<Finding>, dismissed: set<string>, c: Config) returns (r: Correlation.Attempt<seq<Finding>>)
    requires Distinct(fs)
    modifies fs
    ensures r.Raised? <==> Reduced(old(Views(fs)), dismissed, c).Raised?
    ensures r.Value? ==>
              Correlation.Value(Views(r.value)) == Reduced(old(Views(fs)), dismissed, c) && Distinct(r.value)
  {
    hide *;
    var grouped := AgentGroups.GroupAgentFindings(fs, c.rules);
    var open: seq<Finding> := [];
    ghost var ds := Views(grouped);
    NoneOpen(ds, grouped, dismissed, c.id);
    for i := 0 to |grouped|
      invariant ds == Views(grouped) && open == Pick(grouped, Open(ds, dismissed, i, c.id))
    {
      OpenNext(ds, grouped, dismissed, i, c.id);
      if Fingerprint(grouped[i].View(), c.id) !in dismissed {
        open := open + [grouped[i]];
      }
    }
    OpenAll(ds, grouped, open, dismissed, c.id);
    assert forall f | f in open :: f in fs || fresh(f);
    var deduplicated := Dedup.DeduplicateFindings(open, c.cutSuffixes);
    assert forall f | f in deduplicated :: f in fs || fresh(f);
    r := Correlation.CorrelateFindings(deduplicated, c.rules, c.id);
    ReducedIs(old(Views(fs)), dismissed, c);
  }

  lemma NoneOpen(ds: seq<Data>, fs: seq<Finding>, dismissed: set<string>, id: Identity)
    ensures Pick(fs, Open(ds, dismissed, 0, id)) == []
  {
  }

  lemma OpenNext(ds: seq<Data>, fs: seq<Finding>, dismissed: set<string>, i: nat, id: Identity)
    requires i < |ds| == |fs|
    ensures Pick(fs, Open(ds, dismissed, i + 1, id))
         == Pick(fs, Open(ds, dismissed, i, id)) + if Fingerprint(ds[i], id) in dismissed then [] else [fs[i]]
  {
    hide Fingerprint;
  }

  lemma OpenAll(ds: seq<Data>, fs: seq<Finding>, open: seq<Finding>, dismissed: set<string>, id: Identity)
    requires ds == Views(fs) && Distinct(fs) && open == Pick(fs, Open(ds, dismissed, |fs|, id))
    ensures Views(open) == Undismissed(ds, dismissed, id) && Distinct(open)
    ensures forall f | f in open :: f in fs
  {
    hide Fingerprint, Open;
  }

  lemma ReducedIs(ds: seq<Data>, dismissed: set<string>, c: Config)
    ensures Reduced(ds, dismissed, c)
         == Correlation.Correlate(
              Dedup.Deduplicate(Undismissed(AgentGroups.GroupAgents(ds, c.rules), dismissed, c.id), c.cutSuffixes),
              c.rules, c.id)
  {
  }

  // ---------------------------------------------------------------- identities stay apart

  /** After deduplication, no two findings have the same resource. */
  predicate ResourcesDiffer(ds: seq<Data>) {
    forall i, j | 0 <= i < j < |ds| :: ds[i].resource != ds[j].resource
  }

  lemma DeduplicatedResources(ds: seq<Data>, cutSuffixes: string -> string)
    ensures ResourcesDiffer(Dedup.Deduplicate(ds, cutSuffixes))
  {
    hide Dedup.Fold, Dedup.Kept, Dedup.IsGravest;
    Dedup.KeptAreRight(ds, cutSuffixes);
  }

  /** The deduplicated findings are a selection of the grouped ones, with new notes. */
  lemma DeduplicatedAreSelected(grouped: seq<Data>, dismissed: set<string>, c: Config) returns (picks: seq<nat>)
    ensures AgentGroups.SelectedFrom(Dedup.Deduplicate(Undismissed(grouped, dismissed, c.id), c.cutSuffixes), grouped, picks)
  {
    hide Dedup.Fold, Dedup.Kept, Dedup.IsGravest, Fingerprint, Open;
    var open := Open(grouped, dismissed, |grouped|, c.id);
    var kept := Dedup.Kept(Undismissed(grouped, dismissed, c.id), c.cutSuffixes);
    Dedup.KeptAreRight(Undismissed(grouped, dismissed, c.id), c.cutSuffixes);
    picks := seq(|kept|, k requires 0 <= k < |kept| => open[kept[k]]);
  }

  /** Nothing is merged when the agents are grouped again. */
  lemma GroupedAgainDiffer(ds: seq<Data>, rules: AgentGroups.Rules)
    requires ResourcesDiffer(ds) && AgentGroups.Settled(ds, rules)
    ensures ResourcesDiffer(AgentGroups.GroupAgents(ds, rules))
    ensures forall d | d in AgentGroups.GroupAgents(ds, rules) :: d in ds
  {
    hide AgentGroups.Groups, AgentGroups.Settled;
    var groups, out := AgentGroups.Groups(ds, rules), AgentGroups.GroupAgents(ds, rules);
    AgentGroups.GroupsWithin(ds, rules);
    forall a | 0 <= a < |groups|
      ensures out[a] == ds[groups[a][0]]
    {
      AgentGroups.SettledSingle(ds, rules, a);
    }
    forall a, b | 0 <= a < b < |out|
      ensures out[a].resource != out[b].resource
    {
      AgentGroups.FirstsDiffer(ds, rules, a, b);
    }
  }

  /** A shared fingerprint means a shared resource. */
  predicate NoCollision(ds: seq<Data>, id: Identity) {
    forall i, j | 0 <= i < |ds| && 0 <= j < |ds| && Fingerprint(ds[i], id) == Fingerprint(ds[j], id) ::
      ds[i].resource == ds[j].resource
  }

  ghost predicate Injective(digest: string -> string) {
    forall a: string, b: string :: digest(a) == digest(b) ==> a == b
  }

  /** What comes before the symptom in what is digested. */
  function Head(d: Data): string {
    d.category + ":" + d.resource + ":"
  }

  function SymptomClass(d: Data, id: Identity): string {
    id.normalise(SymptomBase(d.symptom, id))
  }

  /** The second resource goes on after a colon with what the first finding's symptom begins with. */
  predicate Continues(d: Data, e: Data, id: Identity) {
    && d.resource + ":" <= e.resource
    && SymptomClass(d, id) == e.resource[|d.resource| + 1..] + ":" + SymptomClass(e, id)
  }

  lemma CategoriesEnd(d: Data, e: Data, x: string, y: string)
    requires ':' !in d.category && ':' !in e.category
    ensures Head(d) + x == Head(e) + y <==>
              d.category == e.category && d.resource + ":" + x == e.resource + ":" + y
  {
    var v, w := d.resource + ":" + x, e.resource + ":" + y;
    assert Head(d) + x == d.category + (":" + v) && Head(e) + y == e.category + (":" + w);
    BeforeJoin(d.category, ":" + v, ':');
    BeforeJoin(e.category, ":" + w, ':');
    assert Before(":" + v, ':') == "" && Before(":" + w, ':') == "";
    assert d.category + "" == d.category && e.category + "" == e.category;
    assert (":" + v)[1..] == v && (":" + w)[1..] == w;
    assert (Head(d) + x)[|d.category|..] == ":" + v && (Head(e) + y)[|e.category|..] == ":" + w;
  }

  lemma ColonCut(r: string, q: string, x: string, y: string)
    ensures r + ":" + x == q + ":" + y && |r| < |q| ==> r + ":" <= q
    ensures r + ":" <= q ==> (r + ":" + x == q + ":" + y <==> x == q[|r| + 1..] + ":" + y)
    ensures |r| == |q| ==> (r + ":" + x == q + ":" + y <==> r == q && x == y)
  {
    var v, w := r + ":" + x, q + ":" + y;
    assert v[..|r| + 1] == r + ":" && v[|r| + 1..] == x;
    if |r| < |q| {
      assert w[..|r| + 1] == q[..|r| + 1] && w[|r| + 1..] == q[|r| + 1..] + ":" + y;
      assert v == v[..|r| + 1] + v[|r| + 1..] && w == w[..|r| + 1] + w[|r| + 1..];
    } else if |r| == |q| {
      assert w[..|r| + 1] == q + ":" && w[|r| + 1..] == y;
      assert v[..|r|] == r && w[..|r|] == q;
    }
  }

  /** Which findings have the same fingerprint, if the digest is injective and no category has a colon. */
  lemma FingerprintExactly(d: Data, e: Data, id: Identity)
    requires Injective(id.digest) && ':' !in d.category && ':' !in e.category
    ensures Fingerprint(d, id) == Fingerprint(e, id) <==>
              && d.category == e.category
              && ((d.resource == e.resource && SymptomClass(d, id) == SymptomClass(e, id))
                  || Continues(d, e, id) || Continues(e, d, id))
  {
    hide SymptomBase;
    var x, y := SymptomClass(d, id), SymptomClass(e, id);
    assert Fingerprint(d, id) == id.digest(Head(d) + x) && Fingerprint(e, id) == id.digest(Head(e) + y);
    CategoriesEnd(d, e, x, y);
    ColonCut(d.resource, e.resource, x, y);
    ColonCut(e.resource, d.resource, y, x);
  }

  /** No resource begins with another one of its category and a colon. */
  predicate ColonsApart(ds: seq<Data>) {
    forall i, j | 0 <= i < |ds| && 0 <= j < |ds| && ds[i].category == ds[j].category ::
      !(ds[i].resource + ":" <= ds[j].resource)
  }

  predicate PlainCategories(ds: seq<Data>) {
    forall i | 0 <= i < |ds| :: ':' !in ds[i].category
  }

  /** The same findings but for what they say. */
  predicate SamePlaces(es: seq<Data>, ds: seq<Data>) {
    |es| == |ds| && forall i | 0 <= i < |ds| :: es[i].category == ds[i].category && es[i].resource == ds[i].resource
  }

  /** Whether some symptoms let findings with these resources collide can be told from the resources. */
  lemma CollideExactly(d: Data, e: Data, digest: string -> string)
    requires Injective(digest) && ':' !in d.category && ':' !in e.category && d.resource != e.resource
    ensures (exists x: string, y: string, id: Identity ::
              id.digest == digest && Fingerprint(d.(symptom := x), id) == Fingerprint(e.(symptom := y), id))
            <==> d.category == e.category && (d.resource + ":" <= e.resource || e.resource + ":" <= d.resource)
  {
    hide Fingerprint, Injective;
    if x: string, y: string, id: Identity :|
        id.digest == digest && Fingerprint(d.(symptom := x), id) == Fingerprint(e.(symptom := y), id) {
      FingerprintExactly(d.(symptom := x), e.(symptom := y), id);
    }
    if d.category == e.category && d.resource + ":" <= e.resource {
      var id := CollidingSymptoms(d, e, digest);
    } else if d.category == e.category && e.resource + ":" <= d.resource {
      var id := CollidingSymptoms(e, d, digest);
    }
  }

  lemma CollidingSymptoms(d: Data, e: Data, digest: string -> string) returns (id: Identity)
    requires d.category == e.category && d.resource + ":" <= e.resource
    ensures id.digest == digest && Fingerprint(d.(symptom := "a"), id) == Fingerprint(e.(symptom := "b"), id)
  {
    var more := e.resource[|d.resource| + 1..] + ":";
    id := Identity(_ => false, s => if s == "a" then more else "", digest);
    BaseOfLetter('a', id);
    BaseOfLetter('b', id);
    ColonCollides(d.(symptom := "a"), e.(symptom := "b"), id);
  }

  lemma BaseOfLetter(c: char, id: Identity)
    requires c != '(' && c != ',' && !id.isSpace(c)
    ensures SymptomBase([c], id) == [c]
  {
    NoCut([c], '(');
    NoCut([c], ',');
  }

  /** If a resource continues another one like that, no digest tells the two findings apart. */
  lemma ColonCollides(d: Data, e: Data, id: Identity)
    requires d.category == e.category && Continues(d, e, id)
    ensures Fingerprint(d, id) == Fingerprint(e, id)
  {
    hide SymptomBase;
    var x, y := SymptomClass(d, id), SymptomClass(e, id);
    ColonCut(d.resource, e.resource, x, y);
    assert Head(d) + x == d.category + ":" + (d.resource + ":" + x);
    assert Head(e) + y == e.category + ":" + (e.resource + ":" + y);
  }

  /** Fingerprints of different resources differ, whatever the symptoms, exactly if no resource begins with
      another one of its category and a colon. */
  lemma ApartExactly(ds: seq<Data>, digest: string -> string)
    requires Injective(digest) && PlainCategories(ds)
    ensures ColonsApart(ds) <==>
              forall es: seq<Data>, id: Identity | SamePlaces(es, ds) && id.digest == digest :: NoCollision(es, id)
  {
    hide Fingerprint, Injective;
    if ColonsApart(ds) {
      forall es: seq<Data>, id: Identity | SamePlaces(es, ds) && id.digest == digest
        ensures NoCollision(es, id)
      {
        ApartDoNotCollide(es, id);
      }
    } else {
      var i, j :| 0 <= i < |ds| && 0 <= j < |ds| && ds[i].category == ds[j].category
                  && ds[i].resource + ":" <= ds[j].resource;
      var id := CollidingSymptoms(ds[i], ds[j], digest);
      var es := ds[i := ds[i].(symptom := "a")][j := ds[j].(symptom := "b")];
      assert i != j && SamePlaces(es, ds) && es[i].resource != es[j].resource;
      assert !NoCollision(es, id);
    }
  }

  lemma ApartDoNotCollide(ds: seq<Data>, id: Identity)
    requires Injective(id.digest) && PlainCategories(ds) && ColonsApart(ds)
    ensures NoCollision(ds, id)
  {
    hide Fingerprint, Injective;
    forall i, j | 0 <= i < |ds| && 0 <= j < |ds| && Fingerprint(ds[i], id) == Fingerprint(ds[j], id)
      ensures ds[i].resource == ds[j].resource
    {
      FingerprintExactly(ds[i], ds[j], id);
    }
  }

  lemma PrintsDifferAtFirst(ds: seq<Data>, grouped: seq<Data>, id: Identity)
    requires NoCollision(ds, id) && ResourcesDiffer(grouped) && forall d | d in grouped :: d in ds
    ensures Correlation.PrintsDiffer(grouped, id)
  {
    hide Fingerprint;
    forall i, j | 0 <= i < j < |grouped|
      ensures Fingerprint(grouped[i], id) != Fingerprint(grouped[j], id)
    {
      assert grouped[i] in ds && grouped[j] in ds;
    }
  }

  /** What the fingerprints of deduplicated findings need to stay apart. */
  ghost predicate TellsApart(ready: seq<Data>, id: Identity) {
    Injective(id.digest) && id.isSpace(' ') && PlainCategories(ready) && ColonsApart(ready)
  }

  lemma MergedPrintsDiffer(ds: seq<Data>, dismissed: set<string>, c: Config)
    requires TellsApart(Deduplicated(ds, dismissed, c), c.id)
    ensures Correlation.PrintsDiffer(Correlation.MergedBySignature(Deduplicated(ds, dismissed, c), c.rules), c.id)
  {
    hide NoCollision, AgentGroups.SelectedFrom, AgentGroups.Settled, AgentGroups.GroupAgents, Correlation.PrintsDiffer,
         Correlation.Phase, Undismissed, ResourcesDiffer, Injective, ColonsApart;
    var ready := Deduplicated(ds, dismissed, c);
    ApartDoNotCollide(ready, c.id);
    var picks := DeduplicatedAreSelected(AgentGroups.GroupAgents(ds, c.rules), dismissed, c);
    AgentGroups.SecondPassMergesNothing(ds, ready, picks, c.rules);
    DeduplicatedResources(Undismissed(AgentGroups.GroupAgents(ds, c.rules), dismissed, c.id), c.cutSuffixes);
    GroupedAgainDiffer(ready, c.rules);
    var grouped := AgentGroups.GroupAgents(ready, c.rules);
    PrintsDifferAtFirst(ready, grouped, c.id);
    Correlation.PhaseKeepsPrintsDifferent(Correlation.BySignature, grouped, c.id);
  }

  /** With an injective digest, all findings that come out of the pipeline have different fingerprints, if no
      category has a colon, and no deduplicated finding's resource begins with another one of its category
      and a colon. */
  lemma ReducedPrintsDiffer(ds: seq<Data>, dismissed: set<string>, c: Config)
    ensures TellsApart(Deduplicated(ds, dismissed, c), c.id) && Reduced(ds, dismissed, c).Value? ==>
              Correlation.PrintsDiffer(Reduced(ds, dismissed, c).value, c.id)
  {
    hide Correlation.PrintsDiffer, Correlation.Phase, Correlation.Link, Correlation.MergedBySignature,
         Correlation.Raises, Deduplicated, Injective, ColonsApart, PlainCategories;
    if TellsApart(Deduplicated(ds, dismissed, c), c.id) {
      MergedPrintsDiffer(ds, dismissed, c);
      var merged := Correlation.MergedBySignature(Deduplicated(ds, dismissed, c), c.rules);
      Correlation.LinkKeepsPrintsDifferent(merged, c.id);
      Correlation.PhaseKeepsPrintsDifferent(Correlation.ByNode, Correlation.Link(merged, c.id), c.id);
    }
  }

  /** Then the pipeline raises an exception exactly if a Jenkins finding with a node comes to the linking,
      and a cluster finding with None for its host is among the deduplicated findings. */
  lemma ReducedRaisesExactly(ds: seq<Data>, dismissed: set<string>, c: Config)
    ensures TellsApart(Deduplicated(ds, dismissed, c), c.id) ==>
              var ready := Deduplicated(ds, dismissed, c);
              Reduced(ds, dismissed, c).Raised? <==>
                && (exists d | d in Correlation.MergedBySignature(ready, c.rules) ::
                      Correlation.IsJenkins(d) && Correlation.BuildNode(d) != "")
                && (exists d | d in ready :: Correlation.IsK8s(d) && d.context.host.None?)
  {
    hide Correlation.PrintsDiffer, Correlation.Correlate, Correlation.MergedBySignature, Correlation.IsJenkins,
         Correlation.IsK8s, Correlation.BuildNode, Deduplicated, TellsApart;
    if TellsApart(Deduplicated(ds, dismissed, c), c.id) {
      MergedPrintsDiffer(ds, dismissed, c);
      Correlation.PassRaisesExactly(Deduplicated(ds, dismissed, c), c.rules, c.id);
    }
  }

  const EXPIRED := "Credential may be expired: "

  /** The findings of two expired credentials, as the check makes them of their identifiers and names: the
      second identifier is the first, a colon, and what the first finding's symptom begins with. */
  predicate CollidingCredentials(d: Data, e: Data, credential: string, name: string) {
    && d.category == e.category == "jenkins_credential" && d.context.host == e.context.host == None
    && d.resource == "jenkins-credential/" + credential
    && e.resource == "jenkins-credential/" + (credential + ":" + EXPIRED + name)
    && d.symptom == EXPIRED + (name + ":" + EXPIRED + name)
    && e.symptom == EXPIRED + name
  }

  /** A symptom that identifies a finding as it is: nothing of it is cut off or replaced. */
  predicate IsWhole(symptom: string, id: Identity) {
    && symptom != "" && '(' !in symptom && ',' !in symptom && id.normalise(symptom) == symptom
    && !id.isSpace(symptom[0]) && !id.isSpace(symptom[|symptom| - 1])
  }

  lemma WholeIsClass(d: Data, id: Identity)
    requires IsWhole(d.symptom, id)
    ensures SymptomClass(d, id) == d.symptom
  {
    NoCut(d.symptom, '(');
    NoCut(d.symptom, ',');
  }

  /** Both come out of the pipeline, as they went in, with one fingerprint. */
  lemma CollidingPairComesOut(d: Data, e: Data, credential: string, name: string, c: Config)
    requires CollidingCredentials(d, e, credential, name)
    requires IsWhole(d.symptom, c.id) && IsWhole(e.symptom, c.id)
    requires !Contains(d.symptom, Dedup.CRASH) && !Contains(e.symptom, Dedup.CRASH)
    ensures Reduced([d, e], {}, c) == Correlation.Value([d, e]) && !Correlation.PrintsDiffer([d, e], c.id)
  {
    hide Fingerprint, IsWhole, AgentGroups.GroupAgents, AgentGroups.PrefixOf, Dedup.Deduplicate, Correlation.Correlate,
         Contains, CollidingCredentials;
    var ds := [d, e];
    CredentialsCollide(d, e, credential, name, c.id);
    AgentGroups.NoGroups(ds, c.rules);
    NoneDismissed(ds, |ds|, c.id);
    assert Pick(ds, Upto(|ds|)) == ds;
    Dedup.DifferentPass(ds, c.cutSuffixes);
    Correlation.UnrelatedPass(ds, c.rules, c.id);
    assert Fingerprint(ds[0], c.id) == Fingerprint(ds[1], c.id);
  }

  lemma CredentialsCollide(d: Data, e: Data, credential: string, name: string, id: Identity)
    requires CollidingCredentials(d, e, credential, name) && IsWhole(d.symptom, id) && IsWhole(e.symptom, id)
    ensures d.resource != e.resource && Fingerprint(d, id) == Fingerprint(e, id)
    ensures d.category == e.category == "jenkins_credential" && d.context.host == e.context.host == None
  {
    hide Fingerprint, IsWhole, SymptomClass;
    WholeIsClass(d, id);
    WholeIsClass(e, id);
    var more := EXPIRED + name;
    assert e.resource == d.resource + ":" + more;
    assert e.resource[..|d.resource| + 1] == d.resource + ":" && e.resource[|d.resource| + 1..] == more;
    assert d.symptom == more + ":" + e.symptom;
    ColonCollides(d, e, id);
  }

  lemma {:induction false} NoneDismissed(ds: seq<Data>, n: nat, id: Identity)
    requires n <= |ds|
    ensures Open(ds, {}, n, id) == Upto(n)
  {
    hide Fingerprint;
    if n > 0 {
      NoneDismissed(ds, n - 1, id);
    }
  }
}
