/** Sorting findings by the answers of a language model: dismiss, investigate, or relate to another
    one. Models src/jenkins_watchdog/reasoning/triage.py from the reply on, and what
    src/jenkins_watchdog/api/router.py drops after it. */
module Triage {
  import opened Sequences
  import opened Strings
  import opened Grouping
  import opened Findings
  import Pipeline

  // ---------------------------------------------------------------- the reply

  /** A field of an answer, as JSON has it. */
  datatype Field = Missing | Text(text: string) | Number(n: int) | Truth(b: bool) | Other

  datatype Answer = NotAnObject | Object(action: Field, group: Field)

  /** What json.loads makes of a text. */
  datatype Json = Malformed | NotAList | List(answers: seq<Answer>)

  /** Where Python's `text.rfind(c)` finds its result. */
  function FindLast(text: string, c: char): (i: int)
    ensures -1 <= i < |text|
    ensures i >= 0 ==> text[i] == c
    ensures forall j | i < j < |text| :: text[j] != c
  {
    if text == "" then -1
    else if text[|text| - 1] == c then |text| - 1
    else
      var i := FindLast(text[..|text| - 1], c);
      assert forall j | 0 <= j < |text| - 1 :: text[j] == text[..|text| - 1][j];
      i
  }

  const INVESTIGATE: Answer := Object(Text("INVESTIGATE"), Missing)

  function Defaults(n: nat): (answers: seq<Answer>)
    ensures |answers| == n && forall i | 0 <= i < n :: answers[i] == INVESTIGATE
  {
    seq(n, i => INVESTIGATE)
  }

  function ParseResponse(text: string, n: nat, loads: string -> Json): seq<Answer> {
    var start, end := Find(text, "["), FindLast(text, ']');
    if start >= 0 && end > start then
      match loads(text[start..end + 1])
      case List(answers) => answers
      case _ => Defaults(n)
    else Defaults(n)
  }

  /** What is read of a reply: the list between its first opening and its last closing bracket. */
  lemma ReplyIsRead(front: string, inner: string, back: string, n: nat, loads: string -> Json)
    requires '[' !in front && ']' !in back
    ensures var list := loads("[" + inner + "]");
            ParseResponse(front + "[" + inner + "]" + back, n, loads) == if list.List? then list.answers else Defaults(n)
  {
    hide Find, FindLast, Contains;
    OuterBrackets(front, inner, back);
  }

  lemma OuterBrackets(front: string, inner: string, back: string)
    requires '[' !in front && ']' !in back
    ensures var text, start, end := front + "[" + inner + "]" + back, |front|, |front| + 1 + |inner|;
            && Find(text, "[") == start && FindLast(text, ']') == end && end < |text|
            && text[start..end + 1] == "[" + inner + "]"
  {
    hide Find, FindLast, Contains;
    var text := front + "[" + inner + "]" + back;
    var start, end := |front|, |front| + 1 + |inner|;
    assert text[start..start + 1] == "[" && At(text, start, "[");
    forall j | 0 <= j < start
      ensures !At(text, j, "[")
    {
      assert text[j..j + 1][0] == front[j] && front[j] in front;
    }
    FoundAt(text, "[", start);
    assert text[end] == ']' && forall j | end < j < |text| :: text[j] == back[j - end - 1] && back[j - end - 1] in back;
    LastAt(text, ']', end);
  }

  lemma LastAt(text: string, c: char, i: nat)
    requires i < |text| && text[i] == c && forall j | i < j < |text| :: text[j] != c
    ensures FindLast(text, c) == i
  {
  }

  // ---------------------------------------------------------------- the verdicts

  datatype Verdict = Dismiss | Investigate | Relate(primary: nat)

  /** A group is an index of a finding; true and false are integers to Python. */
  function GroupIndex(group: Field): Option<int> {
    match group
    case Missing => Some(0)
    case Number(n) => Some(n)
    case Truth(b) => Some(if b then 1 else 0)
    case _ => None
  }

  /** Python's `.get` and `.upper` work on the answer: it is an object, and its action is a string. */
  predicate IsReadable(a: Answer) {
    a.Object? && (a.action.Missing? || a.action.Text?)
  }

  /** What a readable answer means for one of n findings. */
  function VerdictOf(a: Answer, n: nat, upper: string -> string): (v: Verdict)
    ensures v.Relate? ==> v.primary < n
  {
    if !IsReadable(a) then Investigate
    else
      var action := upper(if a.action.Missing? then "INVESTIGATE" else a.action.text);
      if action == "DISMISS" then Dismiss
      else if action == "CORRELATE" then
        match GroupIndex(a.group)
        case Some(g) => if 0 <= g < n then Relate(g) else Investigate
        case None => Investigate
      else Investigate
  }

  /** The answer names the action, in any case; an answer without an action names INVESTIGATE. */
  predicate Does(a: Answer, action: string, upper: string -> string) {
    a.Object? && ((a.action.Text? && upper(a.action.text) == action)
                  || (a.action.Missing? && upper("INVESTIGATE") == action))
  }

  /** The answer's group is finding g: true is 1 to Python, and false and a missing group are 0. */
  predicate IsIndex(group: Field, g: nat) {
    group == Number(g) || (group == Truth(true) && g == 1) || ((group == Truth(false) || group == Missing) && g == 0)
  }

  /** The answer relates its finding to finding g, of n. */
  predicate Relates(a: Answer, g: nat, n: nat, upper: string -> string) {
    Does(a, "CORRELATE", upper) && a.Object? && IsIndex(a.group, g) && g < n
  }

  lemma VerdictExactly(a: Answer, n: nat, upper: string -> string)
    requires IsReadable(a)
    ensures VerdictOf(a, n, upper) == Dismiss <==> Does(a, "DISMISS", upper)
    ensures forall g: nat :: VerdictOf(a, n, upper) == Relate(g) <==> Relates(a, g, n, upper)
  {
    assert "DISMISS"[0] == 'D' && "CORRELATE"[0] == 'C';
  }

  /** How many answers are looked at, for n findings. */
  function Classified(answers: seq<Answer>, n: nat): (m: nat)
    ensures m <= |answers| && m <= n
  {
    if |answers| < n then |answers| else n
  }

  /** No answer makes the sorting fail: each is an object, for the log, and each one that is looked at
      is readable. */
  predicate Readable(answers: seq<Answer>, n: nat) {
    && (forall i | 0 <= i < |answers| :: answers[i].Object?)
    && (forall i | 0 <= i < Classified(answers, n) :: IsReadable(answers[i]))
  }

  /** The sorting fails exactly if an answer is no object, or one that is looked at has an action that is no
      string. */
  lemma FailsExactly(answers: seq<Answer>, n: nat)
    ensures !Readable(answers, n) <==>
              || NotAnObject in answers
              || exists i | 0 <= i < |answers| && i < n :: answers[i].Object? && !answers[i].action.Missing? && !answers[i].action.Text?
  {
    if i :| 0 <= i < |answers| && i < n && answers[i].Object? && !answers[i].action.Missing? && !answers[i].action.Text? {
      assert i < Classified(answers, n) && !IsReadable(answers[i]);
    }
  }

  function Verdicts(answers: seq<Answer>, n: nat, upper: string -> string): (vs: seq<Verdict>)
    ensures |vs| == Classified(answers, n) && Proper(vs, n)
    ensures forall i | 0 <= i < |vs| :: vs[i] == VerdictOf(answers[i], n, upper)
  {
    seq(Classified(answers, n), i requires 0 <= i < Classified(answers, n) => VerdictOf(answers[i], n, upper))
  }

  predicate Proper(vs: seq<Verdict>, n: nat) {
    |vs| <= n && forall i | 0 <= i < |vs| && vs[i].Relate? :: vs[i].primary < n
  }

  /** The positions, among the first m, with a verdict. */
  function With(vs: seq<Verdict>, v: Verdict, m: nat): (picks: seq<nat>)
    requires m <= |vs|
    ensures forall i :: i in picks <==> 0 <= i < m && vs[i] == v
  {
    if m == 0 then [] else if vs[m - 1] == v then With(vs, v, m - 1) + [m - 1] else With(vs, v, m - 1)
  }

  function Keys(vs: seq<Verdict>): (keys: seq<Option<nat>>)
    ensures |keys| == |vs|
    ensures forall i | 0 <= i < |vs| :: keys[i] == if vs[i].Relate? then Some(vs[i].primary) else None
  {
    seq(|vs|, i requires 0 <= i < |vs| => if vs[i].Relate? then Some(vs[i].primary) else None)
  }

  /** The correlation groups, by primary, in the order in which the first related one names them. */
  function Groups(vs: seq<Verdict>): seq<(nat, seq<nat>)> {
    Entries(Keys(vs), |vs|)
  }

  /** The members of a group but its primary. */
  function Related(primary: nat, members: seq<nat>): (r: seq<nat>)
    ensures forall i :: i in r <==> i in members && i != primary
  {
    if members == [] then []
    else
      var rest := Related(primary, members[1..]);
      assert forall i :: i in members <==> i == members[0] || i in members[1..];
      if members[0] == primary then rest else [members[0]] + rest
  }

  // ---------------------------------------------------------------- the last loop

  function Lines(ds: seq<Data>, picks: seq<nat>): (lines: seq<string>)
    requires forall k | 0 <= k < |picks| :: picks[k] < |ds|
    ensures |lines| == |picks| && forall k | 0 <= k < |picks| :: lines[k] == Line(ds[picks[k]])
  {
    seq(|picks|, k requires 0 <= k < |picks| => Line(ds[picks[k]]))
  }

  /** A primary's correlated findings are replaced, not extended. */
  function Rewritten(ds: seq<Data>, g: nat, related: seq<nat>): Data
    requires g < |ds| && forall k | 0 <= k < |related| :: related[k] < |ds|
  {
    ds[g].(context := ds[g].context.(correlatedFindings := Lines(ds, related), correlationGroupSize := 1 + |related|))
  }

  /** Python's `in` on a list of findings compares values. */
  predicate EqualIn(ds: seq<Data>, d: Data, picks: seq<nat>) {
    exists k | 0 <= k < |picks| && picks[k] < |ds| :: ds[picks[k]] == d
  }

  predicate GroupsBelow(d: seq<(nat, seq<nat>)>, n: nat) {
    PositionsBelow(d, n) && forall e | 0 <= e < |d| :: d[e].0 < n
  }

  /** The queue of positions and the values of the findings. */
  datatype State = State(queue: seq<nat>, ds: seq<Data>)

  function RelatedOf(entry: (nat, seq<nat>)): seq<nat> {
    Related(entry.0, entry.1)
  }

  lemma RelatedBelow(d: seq<(nat, seq<nat>)>, e: nat, n: nat)
    requires GroupsBelow(d, n) && e < |d|
    ensures forall k | 0 <= k < |RelatedOf(d[e])| :: RelatedOf(d[e])[k] < n
  {
    forall k | 0 <= k < |RelatedOf(d[e])|
      ensures RelatedOf(d[e])[k] < n
    {
      assert RelatedOf(d[e])[k] in RelatedOf(d[e]);
      var i :| 0 <= i < |d[e].1| && d[e].1[i] == RelatedOf(d[e])[k];
    }
  }

  function Finish(s: State, dismissed: seq<nat>, d: seq<(nat, seq<nat>)>, e: nat): (t: State)
    requires GroupsBelow(d, |s.ds|) && e <= |d|
    ensures |t.ds| == |s.ds|
  {
    if e == 0 then s
    else
      var before, g := Finish(s, dismissed, d, e - 1), d[e - 1].0;
      RelatedBelow(d, e - 1, |s.ds|);
      State(if EqualIn(before.ds, before.ds[g], before.queue + dismissed) then before.queue else before.queue + [g],
            before.ds[g := Rewritten(before.ds, g, RelatedOf(d[e - 1]))])
  }

  lemma GroupsAreBelow(vs: seq<Verdict>, n: nat)
    requires Proper(vs, n)
    ensures GroupsBelow(Groups(vs), n) && HasKeys(Groups(vs), Keys(vs), |vs|) && KeysDiffer(Groups(vs))
  {
    EntriesHaveKeys(Keys(vs), |vs|);
    var d := Groups(vs);
    forall e | 0 <= e < |d|
      ensures d[e].0 < n
    {
      assert Keys(vs)[d[e].1[0]] == Some(d[e].0);
    }
  }

  /** The result of the whole sorting. */
  function Sorted(ds: seq<Data>, vs: seq<Verdict>): (t: State)
    requires Proper(vs, |ds|)
    ensures |t.ds| == |ds|
  {
    GroupsAreBelow(vs, |ds|);
    Finish(State(With(vs, Investigate, |vs|), ds), With(vs, Dismiss, |vs|), Groups(vs), |Groups(vs)|)
  }

  // ---------------------------------------------------------------- nothing is lost silently

  /** The same finding, whatever its context says. */
  predicate SameFinding(a: Data, b: Data) {
    a.severity == b.severity && a.category == b.category && a.resource == b.resource && a.symptom == b.symptom
  }

  predicate AllSame(before: seq<Data>, after: seq<Data>) {
    |before| == |after| && forall i | 0 <= i < |before| :: SameFinding(before[i], after[i])
  }

  lemma {:induction false} FinishKeepsFindings(s: State, dismissed: seq<nat>, d: seq<(nat, seq<nat>)>, e: nat)
    requires GroupsBelow(d, |s.ds|) && e <= |d|
    ensures AllSame(s.ds, Finish(s, dismissed, d, e).ds)
  {
    hide EqualIn, GroupsBelow, RelatedOf;
    if e > 0 {
      FinishKeepsFindings(s, dismissed, d, e - 1);
    }
  }

  lemma {:induction false} FinishKeepsQueue(s: State, dismissed: seq<nat>, d: seq<(nat, seq<nat>)>, e: nat, f: nat)
    requires GroupsBelow(d, |s.ds|) && e <= f <= |d|
    ensures Finish(s, dismissed, d, e).queue <= Finish(s, dismissed, d, f).queue
  {
    hide EqualIn, GroupsBelow, RelatedOf, Rewritten;
    if e < f {
      FinishKeepsQueue(s, dismissed, d, e, f - 1);
    }
  }

  /** Some finding in the list is the same as finding i. */
  predicate Represented(ds: seq<Data>, i: nat, picks: seq<nat>)
    requires i < |ds|
  {
    exists k | 0 <= k < |picks| && picks[k] < |ds| :: SameFinding(ds[picks[k]], ds[i])
  }

  lemma RepresentedBefore(before: seq<Data>, after: seq<Data>, i: nat, picks: seq<nat>)
    requires AllSame(before, after) && i < |before| && Represented(after, i, picks)
    ensures Represented(before, i, picks)
  {
    var k :| 0 <= k < |picks| && picks[k] < |after| && SameFinding(after[picks[k]], after[i]);
    assert SameFinding(before[picks[k]], after[picks[k]]);
  }

  lemma RepresentedInMore(ds: seq<Data>, i: nat, picks: seq<nat>, more: seq<nat>, rest: seq<nat>)
    requires i < |ds| && Represented(ds, i, picks + rest) && picks <= more
    ensures Represented(ds, i, more + rest)
  {
    var k :| 0 <= k < |picks + rest| && (picks + rest)[k] < |ds| && SameFinding(ds[(picks + rest)[k]], ds[i]);
    var l := if k < |picks| then k else k - |picks| + |more|;
    assert (more + rest)[l] == (picks + rest)[k];
  }

  /** When its group is finished, a primary is queued or dismissed: the finding itself, or one that
      was equal to it at that moment. */
  lemma PrimaryIsThere(s: State, dismissed: seq<nat>, d: seq<(nat, seq<nat>)>, e: nat)
    requires GroupsBelow(d, |s.ds|) && e < |d|
    ensures Represented(s.ds, d[e].0, Finish(s, dismissed, d, |d|).queue + dismissed)
  {
    hide Finish, GroupsBelow, SameFinding, RelatedOf;
    var before, after := Finish(s, dismissed, d, e), Finish(s, dismissed, d, e + 1);
    var g := d[e].0;
    assert g < |s.ds| && Represented(before.ds, g, after.queue + dismissed) by {
      PrimaryJustThere(s, dismissed, d, e);
    }
    FinishKeepsFindings(s, dismissed, d, e);
    RepresentedBefore(s.ds, before.ds, g, after.queue + dismissed);
    FinishKeepsQueue(s, dismissed, d, e + 1, |d|);
    RepresentedInMore(s.ds, g, after.queue, Finish(s, dismissed, d, |d|).queue, dismissed);
  }

  lemma PrimaryJustThere(s: State, dismissed: seq<nat>, d: seq<(nat, seq<nat>)>, e: nat)
    requires GroupsBelow(d, |s.ds|) && e < |d|
    ensures d[e].0 < |s.ds|
    ensures Represented(Finish(s, dismissed, d, e).ds, d[e].0, Finish(s, dismissed, d, e + 1).queue + dismissed)
  {
    hide Rewritten, RelatedOf, PositionsBelow;
    var before, after := Finish(s, dismissed, d, e), Finish(s, dismissed, d, e + 1);
    var g := d[e].0;
    if EqualIn(before.ds, before.ds[g], before.queue + dismissed) {
      assert after.queue == before.queue;
    } else {
      assert (after.queue + dismissed)[|before.queue|] == g;
    }
  }

  lemma VerdictsAreFollowed(ds: seq<Data>, vs: seq<Verdict>, i: nat)
    requires Proper(vs, |ds|) && i < |vs|
    ensures match vs[i]
            case Dismiss => i in With(vs, Dismiss, |vs|)
            case Investigate => i in Sorted(ds, vs).queue
            case Relate(g) => Represented(ds, g, Sorted(ds, vs).queue + With(vs, Dismiss, |vs|))
                              && exists e | 0 <= e < |Groups(vs)| ::
                                   Groups(vs)[e].0 == g && (i == g || i in RelatedOf(Groups(vs)[e]))
  {
    hide Finish, Represented;
    var d, dismissed := Groups(vs), With(vs, Dismiss, |vs|);
    var s := State(With(vs, Investigate, |vs|), ds);
    GroupsAreBelow(vs, |ds|);
    match vs[i] {
      case Dismiss =>
      case Investigate =>
        NothingFinished(s, dismissed, d);
        FinishKeepsQueue(s, dismissed, d, 0, |d|);
        InPrefix(s.queue, Sorted(ds, vs).queue, i);
      case Relate(g) =>
        var e := EntryOf(Keys(vs), |vs|, i);
        PrimaryIsThere(s, dismissed, d, e);
    }
  }

  /** Every finding with an answer is dismissed exactly if the answer says so; it is related to the finding that
      the answer names, or is itself that one, which is queued or dismissed; and otherwise it is queued. */
  lemma NothingLostSilently(ds: seq<Data>, answers: seq<Answer>, upper: string -> string, i: nat)
    requires Readable(answers, |ds|) && i < |answers| && i < |ds|
    ensures var vs := Verdicts(answers, |ds|, upper);
            var dismissed, queue := With(vs, Dismiss, |vs|), Sorted(ds, vs).queue;
            && (i in dismissed <==> Does(answers[i], "DISMISS", upper))
            && (forall g | Relates(answers[i], g, |ds|, upper) ::
                  && Represented(ds, g, queue + dismissed)
                  && exists e | 0 <= e < |Groups(vs)| ::
                       Groups(vs)[e].0 == g && (i == g || i in RelatedOf(Groups(vs)[e])))
            && (i in With(vs, Investigate, |vs|) <==>
                  !Does(answers[i], "DISMISS", upper) && forall g :: !Relates(answers[i], g, |ds|, upper))
            && (i in With(vs, Investigate, |vs|) ==> i in queue)
  {
    hide Does, IsIndex, Relates, VerdictOf, Represented, Groups, RelatedOf, Sorted;
    var vs := Verdicts(answers, |ds|, upper);
    VerdictExactly(answers[i], |ds|, upper);
    VerdictsAreFollowed(ds, vs, i);
    forall g | Relates(answers[i], g, |ds|, upper)
      ensures vs[i] == Relate(g)
    {
    }
  }

  lemma NothingFinished(s: State, dismissed: seq<nat>, d: seq<(nat, seq<nat>)>)
    requires GroupsBelow(d, |s.ds|)
    ensures Finish(s, dismissed, d, 0) == s
  {
  }

  lemma InPrefix(front: seq<nat>, whole: seq<nat>, i: nat)
    requires front <= whole && i in front
    ensures i in whole
  {
    var k :| 0 <= k < |front| && front[k] == i;
    assert whole[k] == i;
  }

  lemma {:induction false} AllInvestigate(vs: seq<Verdict>, m: nat)
    requires m <= |vs| && forall i | 0 <= i < |vs| :: vs[i] == Investigate
    ensures With(vs, Investigate, m) == Upto(m) && With(vs, Dismiss, m) == [] && Entries(Keys(vs), m) == []
  {
    if m > 0 {
      AllInvestigate(vs, m - 1);
    }
  }

  /** A reply in which no list can be read leaves every finding queued, in order, and as it is. */
  lemma UnreadQueuesAll(ds: seq<Data>, reply: string, loads: string -> Json, upper: string -> string)
    requires upper("INVESTIGATE") == "INVESTIGATE"
    requires var start, end := Find(reply, "["), FindLast(reply, ']');
             0 <= start < end ==> !loads(reply[start..end + 1]).List?
    ensures var answers := ParseResponse(reply, |ds|, loads);
            Readable(answers, |ds|) && Sorted(ds, Verdicts(answers, |ds|, upper)) == State(Upto(|ds|), ds)
  {
    hide With, Entries, Finish, FindLast, Find;
    var answers := ParseResponse(reply, |ds|, loads);
    var vs := Verdicts(answers, |ds|, upper);
    AllInvestigate(vs, |vs|);
    GroupsAreBelow(vs, |ds|);
    NothingFinished(State(Upto(|ds|), ds), [], []);
  }

  // ---------------------------------------------------------------- nothing is queued twice

  predicate NoDoubles(picks: seq<nat>) {
    forall k, l | 0 <= k < l < |picks| :: picks[k] != picks[l]
  }

  predicate Apart(a: seq<nat>, b: seq<nat>) {
    forall i | i in a :: i !in b
  }

  lemma {:induction false} WithAscends(vs: seq<Verdict>, v: Verdict, m: nat)
    requires m <= |vs|
    ensures NoDoubles(With(vs, v, m))
  {
    if m > 0 {
      WithAscends(vs, v, m - 1);
      var picks := With(vs, v, m - 1);
      forall k | 0 <= k < |picks|
        ensures picks[k] != m - 1
      {
        assert picks[k] in picks;
      }
    }
  }

  lemma EqualToItself(ds: seq<Data>, g: nat, a: seq<nat>, b: seq<nat>)
    requires g < |ds|
    ensures g in a || g in b ==> EqualIn(ds, ds[g], a + b)
  {
    if k :| 0 <= k < |a| && a[k] == g {
      assert (a + b)[k] == g;
    }
    if k :| 0 <= k < |b| && b[k] == g {
      assert (a + b)[|a| + k] == g;
    }
  }

  lemma {:induction false} FinishQueuesOnce(s: State, dismissed: seq<nat>, d: seq<(nat, seq<nat>)>, e: nat)
    requires GroupsBelow(d, |s.ds|) && e <= |d| && NoDoubles(s.queue) && Apart(s.queue, dismissed)
    ensures var queue := Finish(s, dismissed, d, e).queue; NoDoubles(queue) && Apart(queue, dismissed)
  {
    hide Rewritten, RelatedOf, EqualIn, PositionsBelow;
    if e > 0 {
      FinishQueuesOnce(s, dismissed, d, e - 1);
      var before, g := Finish(s, dismissed, d, e - 1), d[e - 1].0;
      EqualToItself(before.ds, g, before.queue, dismissed);
    }
  }

  /** No finding is queued twice, and none that is dismissed is queued. */
  lemma QueuedOnce(ds: seq<Data>, vs: seq<Verdict>)
    requires Proper(vs, |ds|)
    ensures NoDoubles(Sorted(ds, vs).queue) && Apart(Sorted(ds, vs).queue, With(vs, Dismiss, |vs|))
  {
    hide Finish;
    GroupsAreBelow(vs, |ds|);
    WithAscends(vs, Investigate, |vs|);
    FinishQueuesOnce(State(With(vs, Investigate, |vs|), ds), With(vs, Dismiss, |vs|), Groups(vs), |Groups(vs)|);
  }

  // ---------------------------------------------------------------- what is dropped after it

  function Prints(ds: seq<Data>, picks: seq<nat>, id: Identity): (prints: set<string>)
    requires forall k | 0 <= k < |picks| :: picks[k] < |ds|
  {
    set k | 0 <= k < |picks| :: Fingerprint(ds[picks[k]], id)
  }

  /** The findings that go on: those that do not have the fingerprint of a dismissed one. */
  function Remaining(ds: seq<Data>, vs: seq<Verdict>, id: Identity): seq<nat>
    requires Proper(vs, |ds|)
  {
    var dismissed := With(vs, Dismiss, |vs|);
    assert forall k | 0 <= k < |dismissed| :: dismissed[k] in dismissed;
    var after := Sorted(ds, vs).ds;
    Pipeline.Open(after, Prints(after, dismissed, id), |after|, id)
  }

  lemma SamePrints(a: seq<Data>, b: seq<Data>, i: nat, id: Identity)
    requires AllSame(a, b) && i < |a|
    ensures Fingerprint(a[i], id) == Fingerprint(b[i], id)
  {
  }

  lemma DroppedByVerdict(ds: seq<Data>, vs: seq<Verdict>, id: Identity, i: nat)
    requires Proper(vs, |ds|) && i < |ds|
    ensures i !in Remaining(ds, vs, id)
            <==> exists j | 0 <= j < |vs| && vs[j] == Dismiss :: Fingerprint(ds[j], id) == Fingerprint(ds[i], id)
  {
    hide Fingerprint, Finish;
    var dismissed, after := With(vs, Dismiss, |vs|), Sorted(ds, vs).ds;
    GroupsAreBelow(vs, |ds|);
    FinishKeepsFindings(State(With(vs, Investigate, |vs|), ds), dismissed, Groups(vs), |Groups(vs)|);
    forall j | 0 <= j < |ds|
      ensures Fingerprint(ds[j], id) == Fingerprint(after[j], id)
    {
      SamePrints(ds, after, j, id);
    }
    assert forall k | 0 <= k < |dismissed| :: dismissed[k] in dismissed;
    Pipeline.OpenIsExact(after, Prints(after, dismissed, id), |after|, id, i);
    if j :| 0 <= j < |vs| && vs[j] == Dismiss && Fingerprint(ds[j], id) == Fingerprint(ds[i], id) {
      assert j in dismissed;
      var k :| 0 <= k < |dismissed| && dismissed[k] == j;
    }
  }

  /** The findings that are dropped are exactly those with the fingerprint of one that an answer dismisses. */
  lemma DroppedExactly(ds: seq<Data>, answers: seq<Answer>, upper: string -> string, id: Identity, i: nat)
    requires Readable(answers, |ds|) && i < |ds|
    ensures i !in Remaining(ds, Verdicts(answers, |ds|, upper), id)
            <==> exists j | 0 <= j < |answers| && j < |ds| && Does(answers[j], "DISMISS", upper) ::
                   Fingerprint(ds[j], id) == Fingerprint(ds[i], id)
  {
    hide Fingerprint, Remaining, Does, VerdictOf;
    var vs := Verdicts(answers, |ds|, upper);
    DroppedByVerdict(ds, vs, id, i);
    forall j | 0 <= j < |vs|
      ensures vs[j] == Dismiss <==> Does(answers[j], "DISMISS", upper)
    {
      VerdictExactly(answers[j], |ds|, upper);
    }
  }

  // ---------------------------------------------------------------- what is overwritten

  lemma LinesSame(a: seq<Data>, b: seq<Data>, picks: seq<nat>)
    requires AllSame(a, b) && forall k | 0 <= k < |picks| :: picks[k] < |a|
    ensures Lines(a, picks) == Lines(b, picks)
  {
    forall k | 0 <= k < |picks|
      ensures Line(a[picks[k]]) == Line(b[picks[k]])
    {
      assert SameFinding(a[picks[k]], b[picks[k]]);
    }
  }

  /** What the loop has made of finding i: it is rewritten if its group is done, and the same if not. */
  lemma {:induction false} FinishRewrites(s: State, dismissed: seq<nat>, d: seq<(nat, seq<nat>)>, e: nat, f: nat)
    requires GroupsBelow(d, |s.ds|) && KeysDiffer(d) && e <= |d| && f < |d|
    ensures d[f].0 < |s.ds| && forall k | 0 <= k < |RelatedOf(d[f])| :: RelatedOf(d[f])[k] < |s.ds|
    ensures Finish(s, dismissed, d, e).ds[d[f].0]
         == if f < e then Rewritten(s.ds, d[f].0, RelatedOf(d[f])) else s.ds[d[f].0]
  {
    hide EqualIn, RelatedOf, PositionsBelow;
    RelatedBelow(d, f, |s.ds|);
    if e > 0 {
      FinishRewrites(s, dismissed, d, e - 1, f);
      if f == e - 1 {
        FinishKeepsFindings(s, dismissed, d, f);
        LinesSame(s.ds, Finish(s, dismissed, d, f).ds, RelatedOf(d[f]));
      }
    }
  }

  lemma {:induction false} FinishLeaves(s: State, dismissed: seq<nat>, d: seq<(nat, seq<nat>)>, e: nat, i: nat)
    requires GroupsBelow(d, |s.ds|) && e <= |d| && i < |s.ds|
    requires forall f | 0 <= f < |d| :: d[f].0 != i
    ensures Finish(s, dismissed, d, e).ds[i] == s.ds[i]
  {
    hide EqualIn, RelatedOf, GroupsBelow, Rewritten;
    if e > 0 {
      FinishLeaves(s, dismissed, d, e - 1, i);
    }
  }

  /** Every line that finding i had among its correlated findings is still there. */
  predicate KeepsLines(before: Data, after: Data) {
    forall line | line in before.context.correlatedFindings :: line in after.context.correlatedFindings
  }

  lemma LinesForgottenByVerdict(ds: seq<Data>, vs: seq<Verdict>, i: nat)
    requires Proper(vs, |ds|) && i < |ds|
    ensures KeepsLines(ds[i], Sorted(ds, vs).ds[i]) <==>
              forall j | 0 <= j < |vs| && vs[j] == Relate(i) ::
                forall line | line in ds[i].context.correlatedFindings ::
                  exists k | 0 <= k < |vs| && k != i && vs[k] == Relate(i) :: Line(ds[k]) == line
  {
    hide Finish, Line, GroupsBelow, HasKeys, Keys;
    var d, dismissed := Groups(vs), With(vs, Dismiss, |vs|);
    var s := State(With(vs, Investigate, |vs|), ds);
    GroupsAreBelow(vs, |ds|);
    if e :| 0 <= e < |d| && d[e].0 == i {
      FinishRewrites(s, dismissed, d, |d|, e);
      GroupLines(ds, vs, e);
    } else {
      FinishLeaves(s, dismissed, d, |d|, i);
      forall j | 0 <= j < |vs|
        ensures vs[j] != Relate(i)
      {
        NamedGroup(vs, j, i);
      }
    }
  }

  /** Sorting forgets what the correlation passes had noted on a finding exactly when an answer relates
      something to it, unless each noted line is that of a finding now related to it. */
  lemma LinesForgotten(ds: seq<Data>, answers: seq<Answer>, upper: string -> string, i: nat)
    requires Readable(answers, |ds|) && i < |ds|
    ensures KeepsLines(ds[i], Sorted(ds, Verdicts(answers, |ds|, upper)).ds[i]) <==>
              forall j | 0 <= j < |answers| && j < |ds| && Relates(answers[j], i, |ds|, upper) ::
                forall line | line in ds[i].context.correlatedFindings ::
                  exists k | 0 <= k < |answers| && k < |ds| && k != i && Relates(answers[k], i, |ds|, upper) ::
                    Line(ds[k]) == line
  {
    hide Line, Sorted, KeepsLines, Relates, VerdictOf;
    var vs := Verdicts(answers, |ds|, upper);
    LinesForgottenByVerdict(ds, vs, i);
    forall j | 0 <= j < |vs|
      ensures vs[j] == Relate(i) <==> Relates(answers[j], i, |ds|, upper)
    {
      VerdictExactly(answers[j], |ds|, upper);
    }
  }

  lemma NamedGroup(vs: seq<Verdict>, j: nat, i: nat)
    requires j < |vs|
    ensures vs[j] == Relate(i) ==> exists e | 0 <= e < |Groups(vs)| :: Groups(vs)[e].0 == i
  {
    if vs[j] == Relate(i) {
      var e := EntryOf(Keys(vs), |vs|, j);
      assert Groups(vs)[e].0 == i;
    }
  }

  /** A group's lines are those of the findings that the answers relate to its primary. */
  lemma GroupLines(ds: seq<Data>, vs: seq<Verdict>, e: nat)
    requires Proper(vs, |ds|) && e < |Groups(vs)|
    ensures var i, related := Groups(vs)[e].0, RelatedOf(Groups(vs)[e]);
            && (exists j | 0 <= j < |vs| :: vs[j] == Relate(i))
            && (forall k | 0 <= k < |related| :: related[k] < |ds|)
            && (forall line :: line in Lines(ds, related) <==>
                  exists k | 0 <= k < |vs| && k != i && vs[k] == Relate(i) :: Line(ds[k]) == line)
  {
    hide Line;
    GroupsAreBelow(vs, |ds|);
    RelatedBelow(Groups(vs), e, |ds|);
    var entry := Groups(vs)[e];
    var i, related := entry.0, RelatedOf(entry);
    assert vs[entry.1[0]] == Relate(i);
    forall line
      ensures line in Lines(ds, related) <==>
                exists k | 0 <= k < |vs| && k != i && vs[k] == Relate(i) :: Line(ds[k]) == line
    {
      if line in Lines(ds, related) {
        var l :| 0 <= l < |related| && Lines(ds, related)[l] == line;
        assert related[l] in related;
        var m :| 0 <= m < |entry.1| && entry.1[m] == related[l];
        assert vs[related[l]] == Relate(i);
      }
      if k :| 0 <= k < |vs| && k != i && vs[k] == Relate(i) && Line(ds[k]) == line {
        GroupHas(vs, e, k);
        var l :| 0 <= l < |related| && related[l] == k;
        assert Lines(ds, related)[l] == line;
      }
    }
  }

  lemma GroupHas(vs: seq<Verdict>, e: nat, k: nat)
    requires e < |Groups(vs)| && k < |vs| && vs[k] == Relate(Groups(vs)[e].0)
    ensures k in Groups(vs)[e].1
  {
    EntriesHaveKeys(Keys(vs), |vs|);
    var f := EntryOf(Keys(vs), |vs|, k);
    assert f == e;
  }

  /** For example: a lone finding that is related to itself loses the line that it had. */
  lemma SelfRelationForgets(d: Data, line: string, upper: string -> string)
    requires d.context.correlatedFindings == [line] && upper("CORRELATE") == "CORRELATE"
    ensures var answers := [Object(Text("CORRELATE"), Number(0))];
            Readable(answers, 1) && !KeepsLines(d, Sorted([d], Verdicts(answers, 1, upper)).ds[0])
  {
    hide KeepsLines, Sorted;
    var answers := [Object(Text("CORRELATE"), Number(0))];
    LinesForgotten([d], answers, upper, 0);
    assert line in d.context.correlatedFindings;
    assert Relates(answers[0], 0, 1, upper);
  }

  // ---------------------------------------------------------------- the sorting of objects

  datatype Outcome =
    | Failed
    | Result(toInvestigate: seq<Finding>, dismissed: seq<Finding>, correlations: seq<(Finding, seq<Finding>)>)

  /** The groups with the findings at their positions, without the primaries among them. */
  function Objects(d: seq<(nat, seq<nat>)>, fs: seq<Finding>): (r: seq<(nat, seq<Finding>)>)
    requires GroupsBelow(d, |fs|)
    ensures |r| == |d|
    ensures forall e | 0 <= e < |d| ::
              (forall k | 0 <= k < |RelatedOf(d[e])| :: RelatedOf(d[e])[k] < |fs|)
              && r[e] == (d[e].0, Pick(fs, RelatedOf(d[e])))
  {
    forall e | 0 <= e < |d|
      ensures forall k | 0 <= k < |RelatedOf(d[e])| :: RelatedOf(d[e])[k] < |fs|
    {
      RelatedBelow(d, e, |fs|);
    }
    seq(|d|, e requires 0 <= e < |d| => (d[e].0, Pick(fs, RelatedOf(d[e]))))
  }

  /** Making a group if there is none, and adding to its related findings. */
  function AddRelated(d: seq<(nat, seq<Finding>)>, g: nat, more: seq<Finding>): seq<(nat, seq<Finding>)> {
    if d == [] then [(g, more)]
    else if d[0].0 == g then [(g, d[0].1 + more)] + d[1..]
    else [d[0]] + AddRelated(d[1..], g, more)
  }

  lemma {:induction false} RelatedAppend(g: nat, members: seq<nat>, i: nat)
    ensures Related(g, members + [i]) == Related(g, members) + if i == g then [] else [i]
  {
    if members == [] {
      assert members + [i] == [i];
    } else {
      RelatedAppend(g, members[1..], i);
      assert (members + [i])[1..] == members[1..] + [i];
    }
  }

  lemma {:induction false} ObjectsAdd(d: seq<(nat, seq<nat>)>, g: nat, i: nat, fs: seq<Finding>)
    requires GroupsBelow(d, |fs|) && i < |fs| && g < |fs|
    ensures GroupsBelow(Append(d, g, i), |fs|)
    ensures Objects(Append(d, g, i), fs) == AddRelated(Objects(d, fs), g, if i == g then [] else [fs[i]])
  {
    var more := if i == g then [] else [fs[i]];
    if d == [] {
      var alone := (g, [i]);
      RelatedAppend(g, [], i);
      assert [] + [i] == [i] && Append(d, g, i) == [alone] + [];
      assert Pick(fs, RelatedOf(alone)) == more;
      ObjectsFirst(alone, [], fs);
    } else {
      var rest := d[1..];
      RestBelow(d, |fs|);
      assert Objects(d, fs)[1..] == Objects(rest, fs);
      if d[0].0 == g {
        RelatedAppend(g, d[0].1, i);
        var first := (g, d[0].1 + [i]);
        FirstBelow(first, rest, |fs|);
        assert Pick(fs, RelatedOf(first)) == Pick(fs, RelatedOf(d[0])) + more;
        ObjectsFirst(first, rest, fs);
      } else {
        ObjectsAdd(rest, g, i, fs);
        FirstBelow(d[0], Append(rest, g, i), |fs|);
        ObjectsFirst(d[0], Append(rest, g, i), fs);
      }
    }
  }

  lemma RestBelow(d: seq<(nat, seq<nat>)>, n: nat)
    requires d != [] && GroupsBelow(d, n)
    ensures GroupsBelow(d[1..], n)
  {
    assert forall e | 0 <= e < |d[1..]| :: d[1..][e] == d[e + 1];
  }

  lemma FirstBelow(first: (nat, seq<nat>), rest: seq<(nat, seq<nat>)>, n: nat)
    requires GroupsBelow(rest, n) && first.0 < n && forall k | 0 <= k < |first.1| :: first.1[k] < n
    ensures GroupsBelow([first] + rest, n)
  {
  }

  lemma ObjectsFirst(first: (nat, seq<nat>), rest: seq<(nat, seq<nat>)>, fs: seq<Finding>)
    requires GroupsBelow([first] + rest, |fs|) && GroupsBelow(rest, |fs|)
    requires forall k | 0 <= k < |RelatedOf(first)| :: RelatedOf(first)[k] < |fs|
    ensures Objects([first] + rest, fs) == [(first.0, Pick(fs, RelatedOf(first)))] + Objects(rest, fs)
  {
    assert ([first] + rest)[0] == first;
  }

  /** The first m verdicts have been followed. */
  predicate Followed(fs: seq<Finding>, vs: seq<Verdict>, m: nat, queue: seq<Finding>, dismissed: seq<Finding>,
                     groups: seq<(nat, seq<Finding>)>)
  {
    && Proper(vs, |fs|) && m <= |vs|
    && IsPick(queue, fs, With(vs, Investigate, m)) && IsPick(dismissed, fs, With(vs, Dismiss, m))
    && GroupsBelow(Entries(Keys(vs), m), |fs|) && groups == Objects(Entries(Keys(vs), m), fs)
  }

  predicate IsPick(r: seq<Finding>, fs: seq<Finding>, picks: seq<nat>) {
    |r| == |picks| && forall k | 0 <= k < |r| :: picks[k] < |fs| && r[k] == fs[picks[k]]
  }

  lemma FollowedNext(fs: seq<Finding>, vs: seq<Verdict>, m: nat, queue: seq<Finding>, dismissed: seq<Finding>,
                     groups: seq<(nat, seq<Finding>)>)
    requires Followed(fs, vs, m, queue, dismissed, groups) && m < |vs|
    ensures match vs[m]
            case Dismiss => Followed(fs, vs, m + 1, queue, dismissed + [fs[m]], groups)
            case Investigate => Followed(fs, vs, m + 1, queue + [fs[m]], dismissed, groups)
            case Relate(g) =>
              && g < |fs|
              && Followed(fs, vs, m + 1, queue, dismissed, AddRelated(groups, g, if m == g then [] else [fs[m]]))
  {
    hide Append, AddRelated, GroupsBelow;
    EntriesNext(Keys(vs), m);
    if vs[m].Relate? {
      ObjectsAdd(Entries(Keys(vs), m), vs[m].primary, m, fs);
    }
  }

  /** The loop over the answers. */
  method Follow(fs: seq<Finding>, answers: seq<Answer>, upper: string -> string)
      returns (failed: bool, queue: seq<Finding>, dismissed: seq<Finding>, groups: seq<(nat, seq<Finding>)>)
    ensures failed <==> !Readable(answers, |fs|)
    ensures !failed ==>
              Followed(fs, Verdicts(answers, |fs|, upper), Classified(answers, |fs|), queue, dismissed, groups)
  {
    hide Followed, GroupIndex;
    queue, dismissed, groups, failed := [], [], [], false;
    if i :| 0 <= i < |answers| && !answers[i].Object? {
      return true, queue, dismissed, groups;
    }
    ghost var vs := Verdicts(answers, |fs|, upper);
    NoneFollowed(fs, vs);
    for i := 0 to |answers|
      invariant i <= Classified(answers, |fs|) && !failed
      invariant forall k | 0 <= k < i :: IsReadable(answers[k])
      invariant Followed(fs, vs, i, queue, dismissed, groups)
    {
      if i >= |fs| {
        break;
      }
      if !IsReadable(answers[i]) {
        failed := true;
        return;
      }
      FollowedNext(fs, vs, i, queue, dismissed, groups);
      match VerdictOf(answers[i], |fs|, upper) {
        case Dismiss => dismissed := dismissed + [fs[i]];
        case Investigate => queue := queue + [fs[i]];
        case Relate(g) => groups := AddRelated(groups, g, if i == g then [] else [fs[i]]);
      }
    }
  }

  lemma NoneFollowed(fs: seq<Finding>, vs: seq<Verdict>)
    requires Proper(vs, |fs|)
    ensures Followed(fs, vs, 0, [], [], [])
  {
  }

  /** The groups as they are handed on: each primary with its related findings. */
  function Correlations(fs: seq<Finding>, groups: seq<(nat, seq<Finding>)>): (r: seq<(Finding, seq<Finding>)>)
    requires forall e | 0 <= e < |groups| :: groups[e].0 < |fs|
    ensures |r| == |groups| && forall e | 0 <= e < |r| :: r[e] == (fs[groups[e].0], groups[e].1)
  {
    seq(|groups|, e requires 0 <= e < |groups| => (fs[groups[e].0], groups[e].1))
  }

  /** Some finding in the list has the value. */
  predicate ValueIn(d: Data, list: seq<Finding>)
    reads list
  {
    exists k | 0 <= k < |list| :: list[k].View() == d
  }

  lemma ValueInIsEqualIn(fs: seq<Finding>, queue: seq<Finding>, dismissed: seq<Finding>, q: seq<nat>, p: seq<nat>, d: Data)
    requires IsPick(queue, fs, q) && IsPick(dismissed, fs, p)
    ensures ValueIn(d, queue) || ValueIn(d, dismissed) <==> EqualIn(Views(fs), d, q + p)
  {
    var ds := Views(fs);
    if k :| 0 <= k < |queue| && queue[k].View() == d {
      assert ds[(q + p)[k]] == d;
    }
    if k :| 0 <= k < |dismissed| && dismissed[k].View() == d {
      assert ds[(q + p)[|q| + k]] == d;
    }
    if k :| 0 <= k < |q + p| && (q + p)[k] < |ds| && ds[(q + p)[k]] == d {
      if k < |q| {
        assert queue[k].View() == d;
      } else {
        assert dismissed[k - |q|].View() == d;
      }
    }
  }

  /** The body of the last loop. */
  method FinishGroup(fs: seq<Finding>, queue: seq<Finding>, dismissed: seq<Finding>, g: nat, related: seq<Finding>,
                     ghost s: State, ghost p: seq<nat>, ghost picks: seq<nat>) returns (queue': seq<Finding>)
    requires Distinct(fs) && g < |fs| && Views(fs) == s.ds && IsPick(queue, fs, s.queue) && IsPick(dismissed, fs, p)
    requires (forall k | 0 <= k < |picks| :: picks[k] < |fs|) && related == Pick(fs, picks)
    modifies fs
    ensures IsPick(queue', fs, if EqualIn(s.ds, s.ds[g], s.queue + p) then s.queue else s.queue + [g])
    ensures Views(fs) == s.ds[g := Rewritten(s.ds, g, picks)]
  {
    hide EqualIn, ValueIn, Line;
    var primary := fs[g];
    queue' := queue;
    ValueInIsEqualIn(fs, queue, dismissed, s.queue, p, primary.View());
    if !ValueIn(primary.View(), queue) && !ValueIn(primary.View(), dismissed) {
      queue' := queue + [primary];
    }
    var lines := seq(|related|, k requires 0 <= k < |related| reads related => Line(related[k].View()));
    assert lines == Lines(s.ds, picks);
    primary.context := primary.context.(correlatedFindings := lines, correlationGroupSize := 1 + |related|);
  }

  method TriageFindings(fs: seq<Finding>, reply: Option<string>, loads: string -> Json, upper: string -> string)
      returns (r: Outcome)
    requires Distinct(fs)
    modifies fs
    ensures fs == [] ==> r == Result([], [], [])
    ensures fs != [] && reply.None? ==> r == Result(fs, [], []) && Views(fs) == old(Views(fs))
    ensures fs != [] && reply.Some? ==>
              var answers := ParseResponse(reply.value, |fs|, loads);
              var vs := Verdicts(answers, |fs|, upper);
              && (r.Failed? <==> !Readable(answers, |fs|))
              && (r.Failed? ==> Views(fs) == old(Views(fs)))
              && (r.Result? ==>
                   && Views(fs) == Sorted(old(Views(fs)), vs).ds
                   && IsPick(r.toInvestigate, fs, Sorted(old(Views(fs)), vs).queue)
                   && IsPick(r.dismissed, fs, With(vs, Dismiss, |vs|))
                   && GroupsBelow(Groups(vs), |fs|)
                   && r.correlations == Correlations(fs, Objects(Groups(vs), fs)))
  {
    hide *;
    if fs == [] {
      return Result([], [], []);
    }
    if reply.None? {
      return Result(fs, [], []);
    }
    var answers := ParseResponse(reply.value, |fs|, loads);
    ghost var vs, ds := Verdicts(answers, |fs|, upper), Views(fs);
    var failed, queue, dismissed, groups := Follow(fs, answers, upper);
    if failed {
      return Failed;
    }
    ghost var d, p := Groups(vs), With(vs, Dismiss, |vs|);
    ghost var s := State(With(vs, Investigate, |vs|), ds);
    AllFollowed(fs, vs, queue, dismissed, groups);
    NothingFinished(s, p, d);
    for e := 0 to |groups|
      invariant Views(fs) == Finish(s, p, d, e).ds
      invariant IsPick(queue, fs, Finish(s, p, d, e).queue)
    {
      FinishNext(s, p, d, e);
      queue := FinishGroup(fs, queue, dismissed, groups[e].0, groups[e].1, Finish(s, p, d, e), p, RelatedOf(d[e]));
    }
    SortedIs(ds, vs);
    r := Result(queue, dismissed, Correlations(fs, groups));
  }

  lemma AllFollowed(fs: seq<Finding>, vs: seq<Verdict>, queue: seq<Finding>, dismissed: seq<Finding>,
                    groups: seq<(nat, seq<Finding>)>)
    requires Followed(fs, vs, |vs|, queue, dismissed, groups)
    ensures IsPick(queue, fs, With(vs, Investigate, |vs|)) && IsPick(dismissed, fs, With(vs, Dismiss, |vs|))
    ensures GroupsBelow(Groups(vs), |fs|) && groups == Objects(Groups(vs), fs)
    ensures forall e | 0 <= e < |groups| :: groups[e].0 < |fs|
  {
  }

  lemma FinishNext(s: State, dismissed: seq<nat>, d: seq<(nat, seq<nat>)>, e: nat)
    requires GroupsBelow(d, |s.ds|) && e < |d|
    ensures d[e].0 < |s.ds| && forall k | 0 <= k < |RelatedOf(d[e])| :: RelatedOf(d[e])[k] < |s.ds|
    ensures var before, after := Finish(s, dismissed, d, e), Finish(s, dismissed, d, e + 1);
            && after.queue == (if EqualIn(before.ds, before.ds[d[e].0], before.queue + dismissed)
                               then before.queue else before.queue + [d[e].0])
            && after.ds == before.ds[d[e].0 := Rewritten(before.ds, d[e].0, RelatedOf(d[e]))]
  {
    hide EqualIn, Rewritten;
    RelatedBelow(d, e, |s.ds|);
  }

  lemma SortedIs(ds: seq<Data>, vs: seq<Verdict>)
    requires Proper(vs, |ds|) && GroupsBelow(Groups(vs), |ds|)
    ensures Sorted(ds, vs)
         == Finish(State(With(vs, Investigate, |vs|), ds), With(vs, Dismiss, |vs|), Groups(vs), |Groups(vs)|)
  {
  }
}
