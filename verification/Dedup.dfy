/** One finding per resource, and fewer symptoms that follow from another one.
    Models deduplicate_findings in src/jenkins_watchdog/api/router.py. */
module Dedup {
  import opened Sequences
  import opened Strings
  import opened Grouping
  import opened Findings

  const OOM := "OOMKilled"
  const CRASH := "CrashLoopBackOff"
  const IMAGE := "ImagePullBackOff"

  /** `cutSuffixes` are the two expressions that cut the pod's own part off a name. */
  function WorkloadKey(resource: string, cutSuffixes: string -> string): string {
    if '/' !in resource then resource
    else Before(resource, '/') + "/" + cutSuffixes(Before(After(resource, '/'), '/'))
  }

  function Weight(d: Data): int {
    SeverityWeight(d.severity)
  }

  /** How the note on other symptoms grows. */
  function AddNote(note: string, symptom: string): string {
    if note == "" then symptom else note + "; " + symptom
  }

  // ---------------------------------------------------------------- the one pass

  /** The dictionary by resource (insertion order and representatives) and every finding's note. */
  datatype State = State(order: seq<string>, rep: map<string, nat>, notes: seq<string>)

  function Notes(ds: seq<Data>): (notes: seq<string>)
    ensures |notes| == |ds| && forall i | 0 <= i < |ds| :: notes[i] == ds[i].context.alsoSeen
  {
    seq(|ds|, i requires 0 <= i < |ds| => ds[i].context.alsoSeen)
  }

  function Step(ds: seq<Data>, s: State, i: nat): State
    requires i < |ds| == |s.notes| && forall r | r in s.rep :: s.rep[r] < |ds|
  {
    var r := ds[i].resource;
    if r !in s.rep then s.(order := s.order + [r], rep := s.rep[r := i])
    else
      var e := s.rep[r];
      if Weight(ds[i]) > Weight(ds[e]) then s.(rep := s.rep[r := i], notes := s.notes[i := ds[e].symptom])
      else s.(notes := s.notes[e := AddNote(s.notes[e], ds[i].symptom)])
  }

  function Fold(ds: seq<Data>, n: nat): (s: State)
    requires n <= |ds|
    ensures |s.notes| == |ds|
    ensures forall r | r in s.rep :: s.rep[r] < n && ds[s.rep[r]].resource == r
    ensures forall r :: r in s.order <==> r in s.rep
  {
    if n == 0 then State([], map[], Notes(ds)) else Step(ds, Fold(ds, n - 1), n - 1)
  }

  /** The representatives, in the order in which their resources first appeared. */
  function Reps(ds: seq<Data>): (reps: seq<nat>)
    ensures |reps| == |Fold(ds, |ds|).order|
    ensures forall k | 0 <= k < |reps| :: reps[k] < |ds| && reps[k] == Fold(ds, |ds|).rep[Fold(ds, |ds|).order[k]]
  {
    var s := Fold(ds, |ds|);
    seq(|s.order|, k requires 0 <= k < |s.order| => s.rep[s.order[k]])
  }

  // ---------------------------------------------------------------- what the pass promises

  /** `i` is the first of the first n findings of resource r that have the greatest severity. */
  predicate IsFirstMax(ds: seq<Data>, n: nat, r: string, i: nat)
    requires n <= |ds|
  {
    && i < n && ds[i].resource == r
    && (forall j | 0 <= j < n && ds[j].resource == r :: Weight(ds[j]) <= Weight(ds[i]))
    && (forall j | 0 <= j < i && ds[j].resource == r :: Weight(ds[j]) < Weight(ds[i]))
  }

  /** Of the findings of its resource, i is graver than all earlier ones, and none is graver than i. */
  predicate IsGravest(ds: seq<Data>, i: nat)
    requires i < |ds|
  {
    forall j | 0 <= j < |ds| && ds[j].resource == ds[i].resource ::
      !Graver(ds[j].severity, ds[i].severity) && (j < i ==> Graver(ds[i].severity, ds[j].severity))
  }

  lemma GravestIsFirstMax(ds: seq<Data>, i: nat)
    requires i < |ds|
    ensures IsFirstMax(ds, |ds|, ds[i].resource, i) <==> IsGravest(ds, i)
  {
    hide Graver, SeverityWeight;
    forall j | 0 <= j < |ds|
      ensures Graver(ds[j].severity, ds[i].severity) <==> Weight(ds[j]) > Weight(ds[i])
      ensures Graver(ds[i].severity, ds[j].severity) <==> Weight(ds[i]) > Weight(ds[j])
    {
      GraverIsHeavier(ds[j].severity, ds[i].severity);
      GraverIsHeavier(ds[i].severity, ds[j].severity);
    }
  }

  /** Some finding of resource r comes before all findings of resource q. */
  predicate AppearsBefore(ds: seq<Data>, r: string, q: string) {
    exists i | 0 <= i < |ds| :: ds[i].resource == r && forall j | 0 <= j <= i :: ds[j].resource != q
  }

  lemma FoldStep(ds: seq<Data>, n: nat)
    requires 0 < n <= |ds|
    ensures Fold(ds, n) == Step(ds, Fold(ds, n - 1), n - 1)
  {
  }

  lemma {:induction false} RepIsFirstMax(ds: seq<Data>, n: nat, r: string)
    requires n <= |ds| && r in Fold(ds, n).rep
    ensures IsFirstMax(ds, n, r, Fold(ds, n).rep[r])
  {
    hide Weight, AddNote, Fold;
    var last := n - 1;
    FoldStep(ds, n);
    if r in Fold(ds, last).rep {
      RepIsFirstMax(ds, last, r);
    } else {
      forall j | 0 <= j < last
        ensures ds[j].resource != r
      {
        EveryResourceSeen(ds, last, j);
      }
    }
  }

  lemma {:induction false} EveryResourceSeen(ds: seq<Data>, n: nat, i: nat)
    requires i < n <= |ds|
    ensures ds[i].resource in Fold(ds, n).rep
  {
    hide Weight, AddNote, Fold;
    FoldStep(ds, n);
    if i < n - 1 {
      EveryResourceSeen(ds, n - 1, i);
    }
  }

  lemma {:induction false} OrderIsByFirst(ds: seq<Data>, n: nat, k: nat, l: nat)
    requires n <= |ds| && k < l < |Fold(ds, n).order|
    ensures AppearsBefore(ds, Fold(ds, n).order[k], Fold(ds, n).order[l])
  {
    hide Weight, AddNote, Fold;
    assert n > 0 by {
      EmptyOrder(ds);
    }
    FoldStep(ds, n);
    var before := Fold(ds, n - 1);
    if l < |before.order| {
      OrderIsByFirst(ds, n - 1, k, l);
    } else {
      var r, q := before.order[k], ds[n - 1].resource;
      var i := before.rep[r];
      forall j | 0 <= j <= i
        ensures ds[j].resource != q
      {
        EveryResourceSeen(ds, n - 1, j);
      }
      assert ds[i].resource == r;
    }
  }

  lemma EmptyOrder(ds: seq<Data>)
    ensures Fold(ds, 0).order == [] && Fold(ds, 0).rep == map[]
  {
  }

  /** One of the listed findings has the resource. */
  predicate IsRepresented(ds: seq<Data>, reps: seq<nat>, r: string)
    requires forall k | 0 <= k < |reps| :: reps[k] < |ds|
  {
    exists k | 0 <= k < |reps| :: ds[reps[k]].resource == r
  }

  /** The one pass meets the rule it stands for: exactly one representative per resource; resources
      in the order of their first findings; each represented by the first of its gravest findings. */
  lemma RepsAreRight(ds: seq<Data>)
    ensures var reps := Reps(ds);
            && (forall k | 0 <= k < |reps| :: IsGravest(ds, reps[k]))
            && (forall i: nat | i < |ds| :: IsRepresented(ds, reps, ds[i].resource))
            && (forall k, l | 0 <= k < l < |reps| :: AppearsBefore(ds, ds[reps[k]].resource, ds[reps[l]].resource))
  {
    hide Fold, IsFirstMax, IsGravest, AppearsBefore;
    var s, reps := Fold(ds, |ds|), Reps(ds);
    forall k | 0 <= k < |reps|
      ensures IsGravest(ds, reps[k])
    {
      RepIsFirstMax(ds, |ds|, s.order[k]);
      GravestIsFirstMax(ds, reps[k]);
    }
    forall i: nat | i < |ds|
      ensures IsRepresented(ds, reps, ds[i].resource)
    {
      EveryResourceSeen(ds, |ds|, i);
      var k :| 0 <= k < |s.order| && s.order[k] == ds[i].resource;
      assert ds[reps[k]].resource == ds[i].resource;
    }
    forall k, l | 0 <= k < l < |reps|
      ensures AppearsBefore(ds, ds[reps[k]].resource, ds[reps[l]].resource)
    {
      OrderIsByFirst(ds, |ds|, k, l);
    }
  }

  // ---------------------------------------------------------------- the notes

  /** The note of finding i when it becomes a representative: the symptom of the representative it
      replaces, and of that one only; or what it brought along when it is its resource's first. */
  function FirstNote(ds: seq<Data>, i: nat): string
    requires i < |ds|
  {
    var before := Fold(ds, i);
    var r := ds[i].resource;
    if r in before.rep then ds[before.rep[r]].symptom else ds[i].context.alsoSeen
  }

  /** A note, with the symptoms of the findings i..n of the same resource added. */
  function Noted(ds: seq<Data>, r: string, note: string, i: nat, n: nat): string
    requires i <= n <= |ds|
  {
    if i == n then note
    else
      var earlier := Noted(ds, r, note, i, n - 1);
      if ds[n - 1].resource == r then AddNote(earlier, ds[n - 1].symptom) else earlier
  }

  /** The symptoms of the findings i..n of a resource. */
  function SymptomsOf(ds: seq<Data>, r: string, i: nat, n: nat): seq<string>
    requires i <= n <= |ds|
  {
    if i == n then []
    else SymptomsOf(ds, r, i, n - 1) + if ds[n - 1].resource == r then [ds[n - 1].symptom] else []
  }

  /** Texts with semicolons between them, without empty ones at the begin. */
  function Joined(parts: seq<string>): string {
    if parts == [] then "" else if parts[0] == "" then Joined(parts[1..]) else parts[0] + Continued(parts[1..])
  }

  function Continued(parts: seq<string>): string {
    if parts == [] then "" else "; " + parts[0] + Continued(parts[1..])
  }

  lemma {:induction false} ContinuedNext(parts: seq<string>, x: string)
    ensures Continued(parts + [x]) == Continued(parts) + "; " + x
  {
    if parts == [] {
      assert parts + [x] == [x] && [x][1..] == [];
      assert "; " + x + "" == "" + "; " + x;
    } else {
      ContinuedNext(parts[1..], x);
      assert (parts + [x])[1..] == parts[1..] + [x];
      var first, rest := "; " + parts[0], Continued(parts[1..]);
      assert first + (rest + "; " + x) == first + rest + "; " + x;
    }
  }

  lemma {:induction false} JoinedNext(parts: seq<string>, x: string)
    ensures Joined(parts + [x]) == AddNote(Joined(parts), x)
  {
    if parts == [] {
      assert parts + [x] == [x] && [x][1..] == [] && x + "" == x;
    } else {
      assert (parts + [x])[1..] == parts[1..] + [x];
      if parts[0] == "" {
        JoinedNext(parts[1..], x);
      } else {
        ContinuedNext(parts[1..], x);
        var rest := Continued(parts[1..]);
        assert parts[0] + (rest + "; " + x) == parts[0] + rest + "; " + x;
      }
    }
  }

  lemma {:induction false} NotedIsJoined(ds: seq<Data>, r: string, note: string, i: nat, n: nat)
    requires i <= n <= |ds|
    ensures Noted(ds, r, note, i, n) == Joined([note] + SymptomsOf(ds, r, i, n))
  {
    hide AddNote;
    if i == n {
      assert [note] + [] == [note] && [note][1..] == [] && note + "" == note;
    } else {
      NotedIsJoined(ds, r, note, i, n - 1);
      var before := SymptomsOf(ds, r, i, n - 1);
      if ds[n - 1].resource == r {
        JoinedNext([note] + before, ds[n - 1].symptom);
        assert [note] + (before + [ds[n - 1].symptom]) == [note] + before + [ds[n - 1].symptom];
      } else {
        assert before + [] == before;
      }
    }
  }

  lemma {:induction false} NotesAreNoted(ds: seq<Data>, n: nat, r: string)
    requires n <= |ds| && r in Fold(ds, n).rep
    ensures var i := Fold(ds, n).rep[r];
            Fold(ds, n).notes[i] == Noted(ds, r, FirstNote(ds, i), i + 1, n)
  {
    hide Weight, AddNote, Fold, FirstNote;
    assert n > 0 by {
      EmptyOrder(ds);
    }
    var last := n - 1;
    FoldStep(ds, n);
    if Fold(ds, n).rep[r] == last {
      NewNote(ds, last, r);
    } else {
      NotesAreNoted(ds, last, r);
    }
  }

  /** A representative's note tells of the representative it replaced and of all later findings of
      the resource; those that came before both are told of nowhere. */
  lemma NotesAreRight(ds: seq<Data>, n: nat, r: string)
    requires n <= |ds| && r in Fold(ds, n).rep
    ensures var i := Fold(ds, n).rep[r];
            Fold(ds, n).notes[i] == Joined([FirstNote(ds, i)] + SymptomsOf(ds, r, i + 1, n))
  {
    hide Fold, FirstNote;
    var i := Fold(ds, n).rep[r];
    NotesAreNoted(ds, n, r);
    NotedIsJoined(ds, r, FirstNote(ds, i), i + 1, n);
  }

  lemma NewNote(ds: seq<Data>, i: nat, r: string)
    requires i < |ds| && r in Fold(ds, i + 1).rep && Fold(ds, i + 1).rep[r] == i
    ensures Fold(ds, i + 1).notes[i] == FirstNote(ds, i)
  {
    hide Weight, AddNote, Fold;
    FoldStep(ds, i + 1);
    NoNoteYet(ds, i, i);
  }

  lemma {:induction false} NoNoteYet(ds: seq<Data>, n: nat, i: nat)
    requires n <= i < |ds|
    ensures Fold(ds, n).notes[i] == ds[i].context.alsoSeen
  {
    hide Weight, AddNote;
    if n > 0 {
      NoNoteYet(ds, n - 1, i);
    }
  }

  /** For example: of three findings of a resource, the last of which is the worst, the second one's symptom
      is told of nowhere. */
  lemma EarlierSymptomLost(ds: seq<Data>)
    requires |ds| == 3 && ds[0].resource == ds[1].resource == ds[2].resource
    requires ds[0].severity == ds[1].severity == "low" && ds[2].severity == "critical"
    ensures Reps(ds) == [2] && Fold(ds, 3).notes[2] == ds[0].symptom
  {
    hide AddNote, Fold;
    EmptyOrder(ds);
    FoldStep(ds, 1);
    FoldStep(ds, 2);
    FoldStep(ds, 3);
    assert Fold(ds, 1).order == [ds[0].resource] && Fold(ds, 3).rep[ds[0].resource] == 2;
  }

  // ---------------------------------------------------------------- symptoms that follow from others

  predicate HasKeyword(ds: seq<Data>, i: nat, keyword: string)
    requires i < |ds|
  {
    Contains(ds[i].symptom, keyword)
  }

  predicate SameWorkload(ds: seq<Data>, i: nat, j: nat, cutSuffixes: string -> string)
    requires i < |ds| && j < |ds|
  {
    WorkloadKey(ds[i].resource, cutSuffixes) == WorkloadKey(ds[j].resource, cutSuffixes)
  }

  /** A crash loop is dropped when some representative of its workload was killed for memory. */
  predicate Suppressed(ds: seq<Data>, i: nat, cutSuffixes: string -> string)
    requires i < |ds|
  {
    && HasKeyword(ds, i, CRASH)
    && exists k | 0 <= k < |Reps(ds)| :: SameWorkload(ds, i, Reps(ds)[k], cutSuffixes) && HasKeyword(ds, Reps(ds)[k], OOM)
  }

  function Unsuppressed(ds: seq<Data>, reps: seq<nat>, cutSuffixes: string -> string): (kept: seq<nat>)
    requires forall k | 0 <= k < |reps| :: reps[k] < |ds|
    ensures forall i :: i in kept <==> i in reps && !Suppressed(ds, i, cutSuffixes)
  {
    if reps == [] then []
    else
      assert forall k | 0 <= k < |reps[1..]| :: reps[1..][k] == reps[k + 1];
      assert reps == [reps[0]] + reps[1..];
      (if Suppressed(ds, reps[0], cutSuffixes) then [] else [reps[0]]) + Unsuppressed(ds, reps[1..], cutSuffixes)
  }

  /** The positions of the findings that come out. */
  function Kept(ds: seq<Data>, cutSuffixes: string -> string): (kept: seq<nat>)
    ensures forall i :: i in kept <==> i in Reps(ds) && !Suppressed(ds, i, cutSuffixes)
  {
    Unsuppressed(ds, Reps(ds), cutSuffixes)
  }

  /** A suppressed representative's workload still shows an out-of-memory finding in the result
      exactly when one of its representatives has that keyword without the other. */
  lemma SuppressionExplained(ds: seq<Data>, i: nat, cutSuffixes: string -> string)
    requires i in Reps(ds) && Suppressed(ds, i, cutSuffixes)
    ensures (exists o :: o in Kept(ds, cutSuffixes) && SameWorkload(ds, i, o, cutSuffixes) && HasKeyword(ds, o, OOM))
            <==> (exists j :: j in Reps(ds) && SameWorkload(ds, i, j, cutSuffixes)
                              && HasKeyword(ds, j, OOM) && !HasKeyword(ds, j, CRASH))
  {
    var reps := Reps(ds);
    if o :| o in Kept(ds, cutSuffixes) && SameWorkload(ds, i, o, cutSuffixes) && HasKeyword(ds, o, OOM) {
      var k :| 0 <= k < |reps| && reps[k] == o;
      assert SameWorkload(ds, o, reps[k], cutSuffixes);
      assert !HasKeyword(ds, o, CRASH);
    }
    if j :| j in reps && SameWorkload(ds, i, j, cutSuffixes) && HasKeyword(ds, j, OOM) && !HasKeyword(ds, j, CRASH) {
      assert j in Kept(ds, cutSuffixes);
    }
  }

  /** A finding with both keywords suppresses itself. */
  lemma BothKeywordsSuppress(ds: seq<Data>, i: nat, cutSuffixes: string -> string)
    requires i in Reps(ds) && HasKeyword(ds, i, CRASH) && HasKeyword(ds, i, OOM)
    ensures i !in Kept(ds, cutSuffixes)
  {
    var k :| 0 <= k < |Reps(ds)| && Reps(ds)[k] == i;
    assert SameWorkload(ds, i, Reps(ds)[k], cutSuffixes);
  }

  /** For example: the only finding of a workload has both keywords, and nothing comes out. */
  lemma WorkloadVanishes(d: Data, cutSuffixes: string -> string)
    requires Contains(d.symptom, CRASH) && Contains(d.symptom, OOM)
    ensures Kept([d], cutSuffixes) == []
  {
    hide Contains, WorkloadKey, Fold;
    var ds := [d];
    FoldDifferent(ds, 1);
    assert Reps(ds) == [0];
    assert SameWorkload(ds, 0, Reps(ds)[0], cutSuffixes) && Suppressed(ds, 0, cutSuffixes);
    assert [0][1..] == [] && Unsuppressed(ds, [0][1..], cutSuffixes) == [];
    KeptIs(ds, cutSuffixes);
  }

  lemma BeforeIsOther(ds: seq<Data>, r: string, q: string)
    requires AppearsBefore(ds, r, q)
    ensures r != q
  {
  }

  lemma RepsDiffer(ds: seq<Data>)
    ensures DifferentResources(ds, Reps(ds))
  {
    hide Fold, AppearsBefore, IsGravest, Reps;
    RepsAreRight(ds);
    var reps := Reps(ds);
    forall k, l | 0 <= k < l < |reps|
      ensures ds[reps[k]].resource != ds[reps[l]].resource
    {
      BeforeIsOther(ds, ds[reps[k]].resource, ds[reps[l]].resource);
    }
  }

  /** The representatives are exactly the first ones of the gravest findings of the resources. */
  lemma RepsExactly(ds: seq<Data>, i: nat)
    ensures i in Reps(ds) <==> i < |ds| && IsGravest(ds, i)
  {
    hide Fold, IsGravest, IsFirstMax, AppearsBefore, Reps;
    RepsAreRight(ds);
    var reps := Reps(ds);
    if i < |ds| && IsGravest(ds, i) {
      var k :| 0 <= k < |reps| && ds[reps[k]].resource == ds[i].resource;
      GravestIsFirstMax(ds, i);
      GravestIsFirstMax(ds, reps[k]);
      OneFirstMax(ds, ds[i].resource, i, reps[k]);
    }
  }

  lemma OneFirstMax(ds: seq<Data>, r: string, i: nat, j: nat)
    requires IsFirstMax(ds, |ds|, r, i) && IsFirstMax(ds, |ds|, r, j)
    ensures i == j
  {
  }

  /** The workload that a resource names: its namespace, and the second part of its name without the pod's
      own end; or all of it. */
  ghost predicate IsWorkload(key: string, resource: string, cutSuffixes: string -> string) {
    if '/' in resource then
      exists k, name | 0 <= k < |resource| && FirstAt(resource, k, '/') ::
        IsFirstPart(name, resource[k + 1..], '/') && key == resource[..k] + "/" + cutSuffixes(name)
    else key == resource
  }

  lemma KeyIsWorkload(resource: string, cutSuffixes: string -> string, key: string)
    ensures IsWorkload(key, resource, cutSuffixes) <==> key == WorkloadKey(resource, cutSuffixes)
  {
    hide Before, After, IsFirstPart, FirstAt;
    if '/' in resource {
      var k := AfterIsRest(resource, '/');
      var rest := resource[k + 1..];
      forall name
        ensures IsFirstPart(name, rest, '/') <==> name == Before(rest, '/')
      {
        FirstPart(rest, '/', name);
      }
    }
  }

  ghost predicate ShareWorkload(a: string, b: string, cutSuffixes: string -> string) {
    exists key :: IsWorkload(key, a, cutSuffixes) && IsWorkload(key, b, cutSuffixes)
  }

  lemma ShareIsSame(ds: seq<Data>, i: nat, j: nat, cutSuffixes: string -> string)
    requires i < |ds| && j < |ds|
    ensures ShareWorkload(ds[i].resource, ds[j].resource, cutSuffixes) <==> SameWorkload(ds, i, j, cutSuffixes)
  {
    hide IsWorkload, WorkloadKey;
    forall key
      ensures IsWorkload(key, ds[i].resource, cutSuffixes) <==> key == WorkloadKey(ds[i].resource, cutSuffixes)
      ensures IsWorkload(key, ds[j].resource, cutSuffixes) <==> key == WorkloadKey(ds[j].resource, cutSuffixes)
    {
      KeyIsWorkload(ds[i].resource, cutSuffixes, key);
      KeyIsWorkload(ds[j].resource, cutSuffixes, key);
    }
    assert SameWorkload(ds, i, j, cutSuffixes) ==> IsWorkload(WorkloadKey(ds[i].resource, cutSuffixes), ds[j].resource, cutSuffixes);
  }

  /** What comes out: exactly the first one of each resource's gravest findings, unless it is in a crash loop
      and another such one, or itself, of the same workload was killed for memory. */
  lemma KeptExactly(ds: seq<Data>, cutSuffixes: string -> string, i: nat)
    ensures i in Kept(ds, cutSuffixes) <==>
              && i < |ds| && IsGravest(ds, i)
              && !(Contains(ds[i].symptom, "CrashLoopBackOff")
                   && exists j | 0 <= j < |ds| ::
                        && IsGravest(ds, j) && Contains(ds[j].symptom, "OOMKilled")
                        && ShareWorkload(ds[i].resource, ds[j].resource, cutSuffixes))
  {
    hide Fold, Contains, IsGravest, SameWorkload, ShareWorkload, Reps, Unsuppressed;
    var reps := Reps(ds);
    RepsExactly(ds, i);
    forall j: nat | i < |ds| && j < |ds|
      ensures j in reps <==> IsGravest(ds, j)
      ensures ShareWorkload(ds[i].resource, ds[j].resource, cutSuffixes) <==> SameWorkload(ds, i, j, cutSuffixes)
    {
      RepsExactly(ds, j);
      ShareIsSame(ds, i, j, cutSuffixes);
    }
    if k :| 0 <= k < |reps| && i < |ds| && SameWorkload(ds, i, reps[k], cutSuffixes) && HasKeyword(ds, reps[k], OOM) {
      assert reps[k] in reps;
    }
    if j: nat :| i < |ds| && j < |ds| && j in reps && SameWorkload(ds, i, j, cutSuffixes) && HasKeyword(ds, j, OOM) {
      var k :| 0 <= k < |reps| && reps[k] == j;
      assert SameWorkload(ds, i, reps[k], cutSuffixes);
    }
  }

  /** The findings that come out have different resources, and each is the first of its resource's gravest
      findings. */
  lemma KeptAreRight(ds: seq<Data>, cutSuffixes: string -> string)
    ensures var kept := Kept(ds, cutSuffixes);
            && (forall k | 0 <= k < |kept| :: kept[k] < |ds| && IsGravest(ds, kept[k]))
            && DifferentResources(ds, kept)
  {
    hide Suppressed, IsGravest, Unsuppressed, Reps;
    var kept := Kept(ds, cutSuffixes);
    forall k | 0 <= k < |kept|
      ensures kept[k] < |ds| && IsGravest(ds, kept[k])
    {
      assert kept[k] in kept;
      RepsExactly(ds, kept[k]);
    }
    RepsDiffer(ds);
    UnsuppressedDistinct(ds, Reps(ds), cutSuffixes);
    assert kept == Unsuppressed(ds, Reps(ds), cutSuffixes);
  }

  predicate DifferentResources(ds: seq<Data>, picks: seq<nat>)
    requires forall k | 0 <= k < |picks| :: picks[k] < |ds|
  {
    forall k, l | 0 <= k < l < |picks| :: ds[picks[k]].resource != ds[picks[l]].resource
  }

  lemma PrependDifferent(ds: seq<Data>, i: nat, picks: seq<nat>)
    requires i < |ds| && (forall k | 0 <= k < |picks| :: picks[k] < |ds|) && DifferentResources(ds, picks)
    requires forall k | 0 <= k < |picks| :: ds[picks[k]].resource != ds[i].resource
    ensures DifferentResources(ds, [i] + picks)
  {
  }

  lemma {:induction false} UnsuppressedDistinct(ds: seq<Data>, reps: seq<nat>, cutSuffixes: string -> string)
    requires forall k | 0 <= k < |reps| :: reps[k] < |ds|
    requires DifferentResources(ds, reps)
    ensures forall k | 0 <= k < |Unsuppressed(ds, reps, cutSuffixes)| :: Unsuppressed(ds, reps, cutSuffixes)[k] in reps
    ensures DifferentResources(ds, Unsuppressed(ds, reps, cutSuffixes))
  {
    hide Suppressed;
    if reps != [] {
      hide DifferentResources;
      var rest := reps[1..];
      RestDifferent(ds, reps);
      UnsuppressedDistinct(ds, rest, cutSuffixes);
      var later := Unsuppressed(ds, rest, cutSuffixes);
      assert reps == [reps[0]] + rest;
      forall k | 0 <= k < |later|
        ensures later[k] < |ds| && ds[later[k]].resource != ds[reps[0]].resource
      {
        assert later[k] in rest;
      }
      PrependDifferent(ds, reps[0], later);
      assert [] + later == later;
    }
  }

  lemma RestDifferent(ds: seq<Data>, reps: seq<nat>)
    requires reps != [] && (forall k | 0 <= k < |reps| :: reps[k] < |ds|) && DifferentResources(ds, reps)
    ensures forall k | 0 <= k < |reps[1..]| :: reps[1..][k] < |ds|
    ensures DifferentResources(ds, reps[1..])
    ensures forall i | i in reps[1..] :: i < |ds| && ds[i].resource != ds[reps[0]].resource
  {
    assert forall k | 0 <= k < |reps[1..]| :: reps[1..][k] == reps[k + 1];
  }

  // ---------------------------------------------------------------- the pass over objects

  function WithNote(d: Data, note: string): Data {
    d.(context := d.context.(alsoSeen := note))
  }

  /** The values that come out. */
  function Deduplicate(ds: seq<Data>, cutSuffixes: string -> string): (out: seq<Data>)
    ensures |out| == |Kept(ds, cutSuffixes)|
    ensures forall k | 0 <= k < |out| :: Kept(ds, cutSuffixes)[k] < |ds|
              && out[k] == WithNote(ds[Kept(ds, cutSuffixes)[k]], Fold(ds, |ds|).notes[Kept(ds, cutSuffixes)[k]])
  {
    KeptAreRight(ds, cutSuffixes);
    var kept, notes := Kept(ds, cutSuffixes), Fold(ds, |ds|).notes;
    seq(|kept|, k requires 0 <= k < |kept| => WithNote(ds[kept[k]], notes[kept[k]]))
  }

  /** Findings with different resources, none of them in a crash loop, come out as they are. */
  lemma DifferentPass(ds: seq<Data>, cutSuffixes: string -> string)
    requires forall i, j | 0 <= i < j < |ds| :: ds[i].resource != ds[j].resource
    requires forall i | 0 <= i < |ds| :: !Contains(ds[i].symptom, CRASH)
    ensures Deduplicate(ds, cutSuffixes) == ds
  {
    hide Contains, WorkloadKey, Fold;
    FoldDifferent(ds, |ds|);
    var reps := Reps(ds);
    assert reps == Upto(|ds|);
    AllUnsuppressed(ds, reps, cutSuffixes);
    assert Kept(ds, cutSuffixes) == reps;
  }

  lemma {:induction false} AllUnsuppressed(ds: seq<Data>, reps: seq<nat>, cutSuffixes: string -> string)
    requires (forall k | 0 <= k < |reps| :: reps[k] < |ds|) && forall i | 0 <= i < |ds| :: !Contains(ds[i].symptom, CRASH)
    ensures Unsuppressed(ds, reps, cutSuffixes) == reps
  {
    hide Contains, WorkloadKey, Fold;
    if reps != [] {
      AllUnsuppressed(ds, reps[1..], cutSuffixes);
    }
  }

  /** The first n findings all represent their resources. */
  predicate AllRepresent(ds: seq<Data>, s: State, n: nat)
    requires n <= |ds|
  {
    && s.notes == Notes(ds) && |s.order| == n
    && (forall i | 0 <= i < n :: s.order[i] == ds[i].resource && s.order[i] in s.rep && s.rep[s.order[i]] == i)
    && forall r | r in s.rep :: r in s.order
  }

  lemma StepDifferent(ds: seq<Data>, s: State, n: nat)
    requires n < |ds| && forall i, j | 0 <= i < j < |ds| :: ds[i].resource != ds[j].resource
    requires AllRepresent(ds, s, n) && |s.notes| == |ds| && forall r | r in s.rep :: s.rep[r] < |ds|
    ensures AllRepresent(ds, Step(ds, s, n), n + 1)
  {
    assert ds[n].resource !in s.rep;
  }

  lemma {:induction false} FoldDifferent(ds: seq<Data>, n: nat)
    requires n <= |ds| && forall i, j | 0 <= i < j < |ds| :: ds[i].resource != ds[j].resource
    ensures AllRepresent(ds, Fold(ds, n), n)
  {
    hide AllRepresent, Step, Fold;
    if n > 0 {
      FoldDifferent(ds, n - 1);
      FoldStep(ds, n);
      StepDifferent(ds, Fold(ds, n - 1), n - 1);
    } else {
      NoneRepresent(ds);
    }
  }

  lemma NoneRepresent(ds: seq<Data>)
    ensures AllRepresent(ds, Fold(ds, 0), 0)
  {
  }

  lemma DeduplicatedViews(fs: seq<Finding>, result: seq<Finding>, ds: seq<Data>, cutSuffixes: string -> string)
    requires Shows(fs, ds, Fold(ds, |ds|).notes)
    requires forall k | 0 <= k < |Kept(ds, cutSuffixes)| :: Kept(ds, cutSuffixes)[k] < |fs|
    requires result == Pick(fs, Kept(ds, cutSuffixes))
    ensures Views(result) == Deduplicate(ds, cutSuffixes)
  {
    hide Fold, Kept, WithNote;
  }

  /** The kept findings are different objects. */
  lemma KeptObjectsDiffer(fs: seq<Finding>, ds: seq<Data>, cutSuffixes: string -> string)
    requires Distinct(fs) && |fs| == |ds|
    ensures forall k | 0 <= k < |Kept(ds, cutSuffixes)| :: Kept(ds, cutSuffixes)[k] < |fs|
    ensures Distinct(Pick(fs, Kept(ds, cutSuffixes)))
  {
    hide Kept, IsFirstMax;
    KeptAreRight(ds, cutSuffixes);
  }

  /** Every finding is what it was before the pass, but for its note. */
  predicate Shows(fs: seq<Finding>, ds: seq<Data>, notes: seq<string>)
    reads fs
  {
    |fs| == |ds| == |notes| && forall i | 0 <= i < |fs| :: fs[i].View() == WithNote(ds[i], notes[i])
  }

  /** The dictionary of objects is the dictionary of positions. */
  predicate Holds(byResource: map<string, Finding>, fs: seq<Finding>, rep: map<string, nat>) {
    && byResource.Keys == rep.Keys
    && forall r | r in rep :: rep[r] < |fs| && byResource[r] == fs[rep[r]]
  }

  /** The first loop. `order` is the dictionary's insertion order. */
  method KeepHighest(fs: seq<Finding>) returns (order: seq<string>, byResource: map<string, Finding>)
    requires Distinct(fs)
    modifies fs
    ensures var s := Fold(old(Views(fs)), |fs|);
            order == s.order && Holds(byResource, fs, s.rep) && Shows(fs, old(Views(fs)), s.notes)
  {
    hide Step, Shows, Holds;
    ghost var ds := Views(fs);
    order, byResource := [], map[];
    NothingYet(fs, ds);
    for i := 0 to |fs|
      invariant order == Fold(ds, i).order
      invariant Holds(byResource, fs, Fold(ds, i).rep)
      invariant Shows(fs, ds, Fold(ds, i).notes)
    {
      FoldStep(ds, i + 1);
      order, byResource := NoteFinding(fs, ds, Fold(ds, i), i, order, byResource);
    }
  }

  lemma NothingYet(fs: seq<Finding>, ds: seq<Data>)
    requires ds == Views(fs)
    ensures Fold(ds, 0).order == [] && Holds(map[], fs, Fold(ds, 0).rep) && Shows(fs, ds, Fold(ds, 0).notes)
  {
  }

  /** Changing one finding's note. */
  method SetNote(fs: seq<Finding>, ghost ds: seq<Data>, ghost notes: seq<string>, ghost i: nat, f: Finding, note: string)
    requires Distinct(fs) && i < |fs| && fs[i] == f && Shows(fs, ds, notes)
    modifies f
    ensures Shows(fs, ds, notes[i := note])
  {
    assert forall k | 0 <= k < |fs| :: fs[k] == f <==> k == i;
    f.context := f.context.(alsoSeen := note);
  }

  lemma ShownText(fs: seq<Finding>, ds: seq<Data>, notes: seq<string>, i: nat)
    requires i < |fs| && Shows(fs, ds, notes)
    ensures |ds| == |notes| == |fs| && SameText(fs[i], ds[i])
    ensures fs[i].context.alsoSeen == notes[i] && fs[i].severity == ds[i].severity
  {
  }

  /** The body of the first loop. */
  method NoteFinding(fs: seq<Finding>, ghost ds: seq<Data>, ghost s: State, i: nat,
                     order: seq<string>, byResource: map<string, Finding>)
      returns (order': seq<string>, byResource': map<string, Finding>)
    requires Distinct(fs) && i < |fs| == |ds| == |s.notes|
    requires order == s.order && Holds(byResource, fs, s.rep) && Shows(fs, ds, s.notes)
    modifies fs
    ensures var t := Step(ds, s, i);
            order' == t.order && Holds(byResource', fs, t.rep) && Shows(fs, ds, t.notes)
  {
    hide AddNote, Shows, Distinct, SeverityWeight;
    var f := fs[i];
    order', byResource' := order, byResource;
    ShownText(fs, ds, s.notes, i);
    if f.resource !in byResource {
      byResource' := byResource[f.resource := f];
      order' := order + [f.resource];
    } else {
      var existing := byResource[f.resource];
      ghost var e := s.rep[f.resource];
      ShownText(fs, ds, s.notes, e);
      if SeverityWeight(f.severity) > SeverityWeight(existing.severity) {
        byResource' := byResource[f.resource := f];
        SetNote(fs, ds, s.notes, i, f, existing.symptom);
      } else {
        SetNote(fs, ds, s.notes, e, existing, AddNote(existing.context.alsoSeen, f.symptom));
      }
    }
  }

  predicate SameText(f: Finding, d: Data)
    reads f
  {
    f.resource == d.resource && f.symptom == d.symptom
  }

  /** What the second loop has collected from the representatives: their keywords, by workload. */
  predicate Collected(symptoms: map<string, set<string>>, ds: seq<Data>, reps: seq<nat>, cutSuffixes: string -> string)
    requires forall k | 0 <= k < |reps| :: reps[k] < |ds|
  {
    && (forall k | 0 <= k < |reps| :: WorkloadKey(ds[reps[k]].resource, cutSuffixes) in symptoms)
    && (forall key | key in symptoms ::
          OOM in symptoms[key] <==>
            exists k | 0 <= k < |reps| :: WorkloadKey(ds[reps[k]].resource, cutSuffixes) == key && HasKeyword(ds, reps[k], OOM))
  }

  /** The second loop. */
  method CollectSymptoms(values: seq<Finding>, cutSuffixes: string -> string, ghost ds: seq<Data>, ghost reps: seq<nat>)
      returns (symptoms: map<string, set<string>>)
    requires |values| == |reps| && forall k | 0 <= k < |reps| :: reps[k] < |ds| && SameText(values[k], ds[reps[k]])
    ensures Collected(symptoms, ds, reps, cutSuffixes)
  {
    hide WorkloadKey, Contains;
    symptoms := map[];
    for k := 0 to |values|
      invariant Collected(symptoms, ds, reps[..k], cutSuffixes)
    {
      var f := values[k];
      var key := WorkloadKey(f.resource, cutSuffixes);
      var keywords := if key in symptoms then symptoms[key] else {};
      for w := 0 to 3
        invariant OOM in keywords <==> (key in symptoms && OOM in symptoms[key]) || (w > 0 && Contains(f.symptom, OOM))
      {
        var keyword := [OOM, CRASH, IMAGE][w];
        if Contains(f.symptom, keyword) {
          keywords := keywords + {keyword};
        }
      }
      assert reps[..k + 1] == reps[..k] + [reps[k]];
      symptoms := symptoms[key := keywords];
    }
    assert reps[..|values|] == reps;
  }

  lemma {:induction false} UnsuppressedAppend(ds: seq<Data>, reps: seq<nat>, i: nat, cutSuffixes: string -> string)
    requires i < |ds| && forall k | 0 <= k < |reps| :: reps[k] < |ds|
    ensures forall k | 0 <= k < |reps + [i]| :: (reps + [i])[k] < |ds|
    ensures Unsuppressed(ds, reps + [i], cutSuffixes)
         == Unsuppressed(ds, reps, cutSuffixes) + (if Suppressed(ds, i, cutSuffixes) then [] else [i])
  {
    hide Suppressed;
    if reps == [] {
      assert reps + [i] == [i];
    } else {
      UnsuppressedAppend(ds, reps[1..], i, cutSuffixes);
      assert (reps + [i])[1..] == reps[1..] + [i];
      Associative(if Suppressed(ds, reps[0], cutSuffixes) then [] else [reps[0]],
                  Unsuppressed(ds, reps[1..], cutSuffixes), if Suppressed(ds, i, cutSuffixes) then [] else [i]);
    }
  }

  /** The last loop. A crash loop goes if its workload's keywords hold the out-of-memory one; an image
      pull failure is suppressed by nothing. */
  method DropSuppressed(fs: seq<Finding>, values: seq<Finding>, symptoms: map<string, set<string>>,
                        cutSuffixes: string -> string, ghost ds: seq<Data>) returns (result: seq<Finding>)
    requires |fs| == |ds| && values == Pick(fs, Reps(ds))
    requires forall k | 0 <= k < |values| :: SameText(values[k], ds[Reps(ds)[k]])
    requires Collected(symptoms, ds, Reps(ds), cutSuffixes)
    ensures forall k | 0 <= k < |Kept(ds, cutSuffixes)| :: Kept(ds, cutSuffixes)[k] < |fs|
    ensures result == Pick(fs, Kept(ds, cutSuffixes))
  {
    hide *;
    ghost var reps := Reps(ds);
    ghost var kept: seq<nat> := [];
    result := [];
    NoneUnsuppressed(ds, cutSuffixes);
    for k := 0 to |values|
      invariant kept == Unsuppressed(ds, reps[..k], cutSuffixes)
      invariant forall l | 0 <= l < |kept| :: kept[l] < |fs|
      invariant result == Pick(fs, kept)
    {
      var keep := KeepsValue(values[k], symptoms, cutSuffixes, ds, reps[k]);
      assert reps[..k + 1] == reps[..k] + [reps[k]];
      UnsuppressedAppend(ds, reps[..k], reps[k], cutSuffixes);
      if keep {
        result := result + [values[k]];
        kept := kept + [reps[k]];
      }
    }
    assert reps[..|values|] == reps;
    KeptIs(ds, cutSuffixes);
  }

  method KeepsValue(f: Finding, symptoms: map<string, set<string>>, cutSuffixes: string -> string,
                    ghost ds: seq<Data>, ghost i: nat) returns (keep: bool)
    requires i in Reps(ds) && SameText(f, ds[i]) && Collected(symptoms, ds, Reps(ds), cutSuffixes)
    ensures keep <==> !Suppressed(ds, i, cutSuffixes)
  {
    hide WorkloadKey, Contains, Suppressed, Collected, Reps;
    SuppressedByKey(ds, i, symptoms, cutSuffixes);
    keep := !(Contains(f.symptom, CRASH) && OOM in symptoms[WorkloadKey(f.resource, cutSuffixes)]);
  }

  lemma NoneUnsuppressed(ds: seq<Data>, cutSuffixes: string -> string)
    ensures Unsuppressed(ds, Reps(ds)[..0], cutSuffixes) == []
  {
  }

  lemma KeptIs(ds: seq<Data>, cutSuffixes: string -> string)
    ensures Kept(ds, cutSuffixes) == Unsuppressed(ds, Reps(ds), cutSuffixes)
  {
  }

  lemma SuppressedByKey(ds: seq<Data>, i: nat, symptoms: map<string, set<string>>, cutSuffixes: string -> string)
    requires i in Reps(ds) && Collected(symptoms, ds, Reps(ds), cutSuffixes)
    ensures WorkloadKey(ds[i].resource, cutSuffixes) in symptoms
    ensures Suppressed(ds, i, cutSuffixes) <==>
              HasKeyword(ds, i, CRASH) && OOM in symptoms[WorkloadKey(ds[i].resource, cutSuffixes)]
  {
    hide WorkloadKey, Contains, Fold;
    var k :| 0 <= k < |Reps(ds)| && Reps(ds)[k] == i;
  }

  /** The whole pass: the kept findings are the same objects, and of all findings only the note on
      other symptoms has changed. */
  method DeduplicateFindings(fs: seq<Finding>, cutSuffixes: string -> string) returns (result: seq<Finding>)
    requires Distinct(fs)
    modifies fs
    ensures Shows(fs, old(Views(fs)), Fold(old(Views(fs)), |fs|).notes)
    ensures forall k | 0 <= k < |Kept(old(Views(fs)), cutSuffixes)| :: Kept(old(Views(fs)), cutSuffixes)[k] < |fs|
    ensures result == Pick(fs, Kept(old(Views(fs)), cutSuffixes)) && Distinct(result)
    ensures Views(result) == Deduplicate(old(Views(fs)), cutSuffixes)
  {
    hide *;
    ghost var ds := Views(fs);
    var order, byResource := KeepHighest(fs);
    RepresentativeObjects(fs, ds, order, byResource);
    var values := seq(|order|, k requires 0 <= k < |order| && order[k] in byResource => byResource[order[k]]);
    assert values == Pick(fs, Reps(ds));
    var symptoms := CollectSymptoms(values, cutSuffixes, ds, Reps(ds));
    result := DropSuppressed(fs, values, symptoms, cutSuffixes, ds);
    DeduplicatedViews(fs, result, ds, cutSuffixes);
    KeptObjectsDiffer(fs, ds, cutSuffixes);
  }

  /** The objects in the dictionary are those of the representatives. */
  lemma RepresentativeObjects(fs: seq<Finding>, ds: seq<Data>, order: seq<string>, byResource: map<string, Finding>)
    requires |fs| == |ds| && Shows(fs, ds, Fold(ds, |ds|).notes)
    requires order == Fold(ds, |ds|).order && Holds(byResource, fs, Fold(ds, |ds|).rep)
    ensures |order| == |Reps(ds)|
    ensures forall k | 0 <= k < |order| ::
              && order[k] in byResource && byResource[order[k]] == fs[Reps(ds)[k]]
              && SameText(fs[Reps(ds)[k]], ds[Reps(ds)[k]])
  {
    hide Fold, WithNote;
    forall k | 0 <= k < |order|
      ensures SameText(fs[Reps(ds)[k]], ds[Reps(ds)[k]])
    {
      SameTextAt(fs, ds, Fold(ds, |ds|).notes, Reps(ds)[k]);
    }
  }

  lemma SameTextAt(fs: seq<Finding>, ds: seq<Data>, notes: seq<string>, i: nat)
    requires i < |fs| && Shows(fs, ds, notes)
    ensures SameText(fs[i], ds[i])
  {
  }
}
