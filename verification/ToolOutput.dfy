/** The guard between a tool and the model's context: credentials are replaced, then an aggregate
    character budget shortens or withholds the output.
    Models src/jenkins_watchdog/reasoning/claude_agent.py, lines 47-154. */
module ToolOutput {
  import opened Sequences
  import opened Strings

  const REDACTED := "[redacted]"
  const MARKER := "\n... [tool output compacted] ...\n"
  function WithheldNotice(): string {
    "[tool output withheld: this investigation's context " + "budget is spent. "
    + "Conclude from the evidence already gathered.]"
  }
  const MIN_SECRET_LEN := 8

  function HistoryBudget(deep: bool): nat { if deep then 240_000 else 120_000 }

  function ResultFloor(deep: bool): nat { if deep then 4_000 else 2_000 }

  // ---------------------------------------------------------------- redaction

  /** What the configured credentials become: long enough, distinct, longest first. */
  predicate IsSecretList(secrets: seq<Pattern>) {
    && (forall i | 0 <= i < |secrets| :: |secrets[i]| >= MIN_SECRET_LEN)
    && (forall i, j | 0 <= i < j < |secrets| :: |secrets[j]| <= |secrets[i]| && secrets[i] != secrets[j])
  }

  lemma LongestExists(values: set<string>) returns (s: string)
    requires values != {}
    ensures s in values && forall t | t in values :: |t| <= |s|
  {
    s :| s in values;
    if values != {s} {
      var u := LongestExists(values - {s});
      if |s| < |u| {
        s := u;
      }
    }
  }

  /** Python's `sorted(values, key=len, reverse=True)` over a set; ties come out in any order. */
  method LongestFirst(values: set<string>) returns (sorted: seq<string>)
    ensures forall v :: v in sorted <==> v in values
    ensures forall i, j | 0 <= i < j < |sorted| :: |sorted[j]| <= |sorted[i]| && sorted[i] != sorted[j]
  {
    sorted := [];
    var rest := values;
    while rest != {}
      invariant rest <= values
      invariant forall v :: v in sorted <==> v in values - rest
      invariant forall i, j | 0 <= i < j < |sorted| :: |sorted[j]| <= |sorted[i]| && sorted[i] != sorted[j]
      invariant forall i, v | 0 <= i < |sorted| && v in rest :: |v| <= |sorted[i]|
      decreases rest
    {
      ghost var longest := LongestExists(rest);
      var s :| s in rest && forall t | t in rest :: |t| <= |s|;
      assert forall i | 0 <= i < |sorted| :: sorted[i] in values - rest;
      sorted := sorted + [s];
      rest := rest - {s};
    }
  }

  /** The configured settings are stripped, short ones are skipped, and the rest is sorted by
      length, longest first. `strip` is Python's str.strip. */
  method SecretValues(settings: seq<string>, strip: string -> string) returns (secrets: seq<Pattern>)
    ensures IsSecretList(secrets)
    ensures forall v :: v in secrets <==>
              exists i | 0 <= i < |settings| :: v == strip(settings[i]) && |v| >= MIN_SECRET_LEN
  {
    var values: set<string> := {};
    for i := 0 to |settings|
      invariant forall v :: v in values <==>
                  exists k | 0 <= k < i :: v == strip(settings[k]) && |v| >= MIN_SECRET_LEN
    {
      if |strip(settings[i])| >= MIN_SECRET_LEN {
        values := values + {strip(settings[i])};
      }
    }
    var sorted := LongestFirst(values);
    assert forall i | 0 <= i < |sorted| :: sorted[i] in values;
    secrets := sorted;
  }

  function Redact(text: string, secrets: seq<Pattern>): string
    decreases |secrets|
  {
    if secrets == [] then text
    else Redact(Replace(text, secrets[0], REDACTED), secrets[1..])
  }

  method RedactText(output: string, secrets: seq<Pattern>) returns (text: string)
    ensures text == Redact(output, secrets)
  {
    text := output;
    for i := 0 to |secrets|
      invariant Redact(text, secrets[i..]) == Redact(output, secrets)
    {
      if Contains(text, secrets[i]) {
        text := Replace(text, secrets[i], REDACTED);
      }
      assert secrets[i..][1..] == secrets[i + 1..];
    }
  }

  /** Redacting does not create a string that is apart from the mark. */
  lemma {:induction false} RedactCreatesNothing(text: string, secrets: seq<Pattern>, s: Pattern)
    requires Apart(s, REDACTED) && Contains(Redact(text, secrets), s)
    ensures Contains(text, s)
    decreases |secrets|
  {
    if secrets != [] {
      RedactCreatesNothing(Replace(text, secrets[0], REDACTED), secrets[1..], s);
      ReplaceCreatesNothing(text, secrets[0], REDACTED, s);
    }
  }

  /** Every secret of the list that is apart from the mark is gone, whatever the other secrets
      look like and in whatever order they are replaced. */
  lemma {:induction false} RedactRemoves(text: string, secrets: seq<Pattern>, s: Pattern)
    requires s in secrets && Apart(s, REDACTED)
    ensures !Contains(Redact(text, secrets), s)
    decreases |secrets|
  {
    var next := Replace(text, secrets[0], REDACTED);
    if s == secrets[0] {
      ReplaceRemoves(text, s, REDACTED);
      if Contains(Redact(text, secrets), s) {
        RedactCreatesNothing(next, secrets[1..], s);
      }
    } else {
      RedactRemoves(next, secrets[1..], s);
    }
  }

  /** A string that avoids the mark's first and last character, and is not inside it, is apart. */
  lemma PlainIsApart(s: Pattern, mark: Pattern)
    ensures Apart(s, mark) || mark[0] in s || mark[|mark| - 1] in s || Contains(mark, s)
  {
    if o :| 0 <= o < |mark| && Meets(s, mark[o..]) {
      if s <= mark[o..] {
        assert mark[o..o + |s|] == s;
        assert At(mark, o, s);
      } else {
        assert s[|mark| - o - 1] == mark[|mark| - 1];
      }
    } else if k :| 0 < k < |s| && Meets(s[k..], mark) {
      assert s[k..][0] == mark[0];
    }
  }

  /** A run of one character that is at neither end of `s` keeps `s` out of the text around it. */
  lemma RunKeepsOut(a: string, run: string, c: char, b: string, s: Pattern)
    requires |a| < |s| && |b| < |s| == |run|
    requires forall k | 0 <= k < |run| :: run[k] == c
    requires c != s[0] && c != s[|s| - 1]
    ensures !Contains(a + run + b, s)
  {
    var t := a + run + b;
    forall i | 0 <= i <= |t| - |s|
      ensures !At(t, i, s)
    {
      AtChars(t, i, s);
      if i <= |a| {
        assert t[i + (|s| - 1)] == c;
      } else {
        assert t[i + 0] == c;
      }
    }
  }

  /** A run that does not extend to the left is found where it starts. */
  lemma RunFoundFirst(a: string, run: Pattern, c: char, b: string)
    requires forall k | 0 <= k < |run| :: run[k] == c
    requires a != "" ==> a[|a| - 1] != c
    requires |a| < |run|
    ensures Find(a + run + b, run) == |a|
  {
    var t := a + run + b;
    assert At(t, |a|, run) by {
      assert t[|a|..|a| + |run|] == run;
    }
    forall i | 0 <= i < |a|
      ensures !At(t, i, run)
    {
      if i + |run| <= |t| {
        AtChars(t, i, run);
        assert t[i + (|a| - 1 - i)] == a[|a| - 1];
      }
    }
  }

  lemma ReplaceRun(a: string, run: Pattern, c: char, b: string, mark: string)
    requires forall k | 0 <= k < |run| :: run[k] == c
    requires a != "" ==> a[|a| - 1] != c
    requires |a| < |run| && |b| < |run|
    ensures Replace(a + run + b, run, mark) == a + mark + b
  {
    var t := a + run + b;
    RunFoundFirst(a, run, c, b);
    assert t[..|a|] == a && t[|a| + |run|..] == b;
    assert Find(b, run) == -1;
  }

  lemma RedactTwo(text: string, first: Pattern, second: Pattern)
    ensures Redact(text, [first, second]) == Replace(Replace(text, first, REDACTED), second, REDACTED)
  {
    var once := Replace(text, first, REDACTED);
    assert [first, second][1..] == [second] && [second][1..] == [];
    assert Redact(once, [second]) == Redact(Replace(once, second, REDACTED), []);
  }

  /** A secret that the mark completes is leaked by replacing a run that separates its two ends. */
  lemma LeakThrough(a: string, run: Pattern, c: char, b: string, s: Pattern)
    requires |a| < |s| && |b| < |s| == |run|
    requires forall k | 0 <= k < |run| :: run[k] == c
    requires c != s[0] && c != s[|s| - 1] && (a != "" ==> a[|a| - 1] != c)
    requires Contains(a + REDACTED + b, s)
    ensures Contains(Redact(a + run + b, [s, run]), s)
  {
    RunKeepsOut(a, run, c, b, s);
    ReplaceRun(a, run, c, b, REDACTED);
    RedactTwo(a + run + b, s, run);
  }

  /** This text, redacted with this list of credentials, still shows one of them. */
  predicate Leaks(s: string, secrets: seq<Pattern>, text: string) {
    IsSecretList(secrets) && s in secrets && Contains(Redact(text, secrets), s)
  }

  /** A list holding a secret that the mark completes, and a text that leaks it. */
  lemma LeakWitness(a: string, b: string, s: Pattern) returns (secrets: seq<Pattern>, text: string)
    requires |s| >= MIN_SECRET_LEN && |a| < |s| && |b| < |s| && Contains(a + REDACTED + b, s)
    ensures Leaks(s, secrets, text)
  {
    var c := OtherChar(s[0], s[|s| - 1], if a == "" then s[0] else a[|a| - 1]);
    var run := Fill(c, |s|);
    secrets, text := [s, run], a + run + b;
    assert run[0] != s[0];
    LeakThrough(a, run, c, b, s);
  }

  function Fill(c: char, n: nat): (run: string)
    ensures |run| == n && forall k | 0 <= k < n :: run[k] == c
  {
    seq(n, _ => c)
  }

  function OtherChar(x: char, y: char, z: char): (c: char)
    ensures c != x && c != y && c != z
  {
    if 'a' !in [x, y, z] then 'a' else if 'b' !in [x, y, z] then 'b' else if 'c' !in [x, y, z] then 'c' else 'd'
  }

  lemma NoLeak(s: Pattern, secrets: seq<Pattern>, text: string)
    requires Apart(s, REDACTED)
    ensures !Leaks(s, secrets, text)
  {
    if s in secrets {
      RedactRemoves(text, secrets, s);
    }
  }

  /** No text, and no list of credentials, leaks a given credential exactly when no text around the mark
      completes it. */
  lemma RedactExact(s: Pattern)
    requires |s| >= MIN_SECRET_LEN
    ensures (forall secrets: seq<Pattern>, text: string :: !Leaks(s, secrets, text)) <==> NeverCompletes(s, REDACTED)
    ensures NeverCompletes(s, REDACTED) <==> Apart(s, REDACTED)
  {
    hide NeverCompletes, Apart, Leaks;
    SpliceExact(s, REDACTED);
    if Apart(s, REDACTED) {
      forall secrets: seq<Pattern>, text: string
        ensures !Leaks(s, secrets, text)
      {
        NoLeak(s, secrets, text);
      }
    } else {
      var a, b := SpliceWitness(s, REDACTED);
      var secrets, text := LeakWitness(a, b, s);
    }
  }

  // ---------------------------------------------------------------- elision

  /** Python's `value[-h:]`: for h = 0 this is the whole value, not the empty string. */
  function LastChars(value: string, h: nat): string
    requires h <= |value|
  {
    if h == 0 then value else value[|value| - h..]
  }

  /** The value itself if it fits, else its two ends with the mark between them. */
  function Elide(value: string, limit: int, mark: string): string {
    if |value| <= limit || limit <= 0 then value
    else value[..limit / 2] + mark + LastChars(value, limit / 2)
  }

  function Bounded(value: string, limit: int): string {
    Elide(value, limit, MARKER)
  }

  /** An over-long value overshoots the limit by the marker, less the odd character; at limit 1
      nothing is cut at all and the marker is put in front. */
  lemma BoundedLength(value: string, limit: int)
    requires 0 < limit < |value|
    ensures limit >= 2 ==> |Bounded(value, limit)| == limit - limit % 2 + 33
    ensures limit == 1 ==> Bounded(value, limit) == MARKER + value
    ensures value[..limit / 2] <= Bounded(value, limit)
    ensures LastChars(value, limit / 2) == Bounded(value, limit)[limit / 2 + 33..]
  {
    assert |MARKER| == 33;
  }

  lemma ElideCreatesNothing(value: string, limit: int, mark: string, s: Pattern)
    requires Apart(s, mark) && Contains(Elide(value, limit, mark), s)
    ensures Contains(value, s)
  {
    if 0 < limit < |value| {
      var h := limit / 2;
      SpliceCases(value[..h], mark, LastChars(value, h), s);
      if Contains(value[..h], s) {
        ContainsPart(value, 0, h, s);
      } else if h > 0 {
        assert LastChars(value, h) == value[|value| - h..|value|];
        ContainsPart(value, |value| - h, |value|, s);
      }
    }
  }

  /** `s` can only start and end inside `a` or inside `b`, and neither is long enough. */
  lemma FillKeepsOut(c: char, m: nat, a: string, b: string, n: nat, s: Pattern)
    requires |a| < |s| && |b| < |s| && c != s[0] && c != s[|s| - 1]
    ensures !Contains((Fill(c, m) + a) + Fill(c, |s|) + (b + Fill(c, n)), s)
  {
    var t := (Fill(c, m) + a) + Fill(c, |s|) + (b + Fill(c, n));
    forall i | 0 <= i <= |t| - |s|
      ensures !At(t, i, s)
    {
      AtChars(t, i, s);
      assert t[i + 0] == c || t[i + (|s| - 1)] == c;
    }
  }

  lemma ElideAround(left: string, middle: string, right: string, mark: string)
    requires |left| == |right| > 0 && middle != ""
    ensures Elide(left + middle + right, 2 * |left|, mark) == left + mark + right
  {
    var value := left + middle + right;
    assert value[..|left|] == left;
    assert LastChars(value, |left|) == right;
  }

  lemma ContainsInside(before: string, inner: string, after: string, s: string)
    requires Contains(inner, s)
    ensures Contains(before + inner + after, s)
  {
    var t := before + inner + after;
    assert t[|before|..|before| + |inner|] == inner;
    ContainsPart(t, |before|, |before| + |inner|, s);
  }

  lemma Regroup(before: string, a: string, mark: string, b: string, after: string)
    ensures before + (a + mark + b) + after == (before + a) + mark + (b + after)
  {
  }

  lemma ElideJoins(before: string, a: string, middle: string, b: string, after: string, mark: string, s: string)
    requires |before + a| == |b + after| > 0 && middle != "" && Contains(a + mark + b, s)
    ensures Contains(Elide((before + a) + middle + (b + after), 2 * |before + a|, mark), s)
  {
    ElideAround(before + a, middle, b + after, mark);
    Regroup(before, a, mark, b, after);
    ContainsInside(before, a + mark + b, after, s);
  }

  /** A value in which the mark completes `s` when the value is shortened. */
  lemma ElideWitness(a: string, b: string, mark: string, s: Pattern) returns (value: string, limit: int)
    requires |a| < |s| && |b| < |s| && Contains(a + mark + b, s)
    ensures Contains(Elide(value, limit, mark), s) && !Contains(value, s)
  {
    var c := OtherChar(s[0], s[|s| - 1], s[0]);
    var h := if |a| <= |b| then |b| + 1 else |a| + 1;
    var before, middle, after := Fill(c, h - |a|), Fill(c, |s|), Fill(c, h - |b|);
    value, limit := (before + a) + middle + (b + after), 2 * h;
    FillKeepsOut(c, h - |a|, a, b, h - |b|, s);
    assert |before + a| == h == |b + after|;
    ElideJoins(before, a, middle, b, after, mark, s);
  }

  /** Shortening never completes a string, for all values and limits, exactly when no text around the
      marker does. */
  lemma BoundedExact(s: Pattern)
    ensures (forall value: string, limit: int :: Contains(Bounded(value, limit), s) ==> Contains(value, s))
            <==> NeverCompletes(s, MARKER)
    ensures NeverCompletes(s, MARKER) <==> Apart(s, MARKER)
  {
    hide NeverCompletes, Apart, Contains;
    SpliceExact(s, MARKER);
    if Apart(s, MARKER) {
      forall value: string, limit: int | Contains(Bounded(value, limit), s)
        ensures Contains(value, s)
      {
        ElideCreatesNothing(value, limit, MARKER, s);
      }
    } else {
      var a, b := SpliceWitness(s, MARKER);
      var value, limit := ElideWitness(a, b, MARKER, s);
      assert Contains(Bounded(value, limit), s) && !Contains(value, s);
    }
  }

  // ---------------------------------------------------------------- the aggregate budget

  /** What one tool call hands to the model. */
  datatype Issue = Whole(text: string) | Compacted(text: string) | Withheld

  function Text(issue: Issue, notice: string): string {
    if issue.Withheld? then notice else issue.text
  }

  /** What an issue costs: only the fixed notice is free. */
  function Cost(issue: Issue): nat {
    if issue.Withheld? then 0 else |issue.text|
  }

  function TotalCost(issues: seq<Issue>): nat {
    if issues == [] then 0 else Cost(issues[0]) + TotalCost(issues[1..])
  }

  /** The issue for a redacted text when `spent` characters have been returned before it. */
  function Cap(deep: bool, spent: nat, text: string): Issue {
    var remaining := HistoryBudget(deep) - spent;
    if remaining < ResultFloor(deep) then Withheld
    else if |text| <= remaining then Whole(text)
    else Compacted(Bounded(text, remaining))
  }

  function CapAll(deep: bool, spent: nat, texts: seq<string>): (issues: seq<Issue>)
    ensures |issues| == |texts|
    decreases |texts|
  {
    if texts == [] then []
    else
      var issue := Cap(deep, spent, texts[0]);
      [issue] + CapAll(deep, spent + Cost(issue), texts[1..])
  }

  function RedactAll(outputs: seq<string>, secrets: seq<Pattern>): (texts: seq<string>)
    ensures |texts| == |outputs|
    ensures forall i | 0 <= i < |outputs| :: texts[i] == Redact(outputs[i], secrets)
  {
    seq(|outputs|, i requires 0 <= i < |outputs| => Redact(outputs[i], secrets))
  }

  /** All the issues of a fresh recorder's run of tool calls, in order. */
  function BoundAll(deep: bool, secrets: seq<Pattern>, outputs: seq<string>): (issues: seq<Issue>)
    ensures |issues| == |outputs|
  {
    CapAll(deep, 0, RedactAll(outputs, secrets))
  }

  class ToolCallRecorder {
    const deep: bool
    const secrets: seq<Pattern>
    const notice: string
    var toolsUsed: seq<string>
    var returnedChars: nat

    constructor (deep: bool, secrets: seq<Pattern>, configured: seq<Pattern>)
      ensures this.deep == deep && notice == WithheldNotice() && toolsUsed == [] && returnedChars == 0
      ensures this.secrets == if secrets == [] then configured else secrets
    {
      this.deep := deep;
      this.secrets := if secrets == [] then configured else secrets;
      notice := WithheldNotice();
      toolsUsed, returnedChars := [], 0;
    }

    method Record(name: string)
      modifies this`toolsUsed
      ensures toolsUsed == old(toolsUsed) + [name]
    {
      toolsUsed := toolsUsed + [name];
    }

    /** One call of a tool, which has come to the given output. */
    method Invoke(name: string, output: string) returns (text: string)
      modifies this`toolsUsed, this`returnedChars
      ensures toolsUsed == old(toolsUsed) + [name]
      ensures var issue := Cap(deep, old(returnedChars), Redact(output, secrets));
              && returnedChars == old(returnedChars) + Cost(issue)
              && text == Text(issue, notice)
    {
      hide *;
      Record(name);
      text := Bound(output);
    }

    method Bound(output: string) returns (text: string)
      modifies this`returnedChars
      ensures var issue := Cap(deep, old(returnedChars), Redact(output, secrets));
              && returnedChars == old(returnedChars) + Cost(issue)
              && text == Text(issue, notice)
    {
      text := RedactText(output, secrets);
      text := Spend(text);
    }

    /** Cap a redacted text by what is left of the budget. */
    method Spend(redacted: string) returns (text: string)
      modifies this`returnedChars
      ensures text == Text(Cap(deep, old(returnedChars), redacted), notice)
      ensures returnedChars == old(returnedChars) + Cost(Cap(deep, old(returnedChars), redacted))
    {
      var remaining := HistoryBudget(deep) - returnedChars;
      if remaining < ResultFloor(deep) {
        return notice;
      }
      text := Bounded(redacted, remaining);
      returnedChars := returnedChars + |text|;
    }
  }

  lemma CapAllFirst(deep: bool, spent: nat, text: string, texts: seq<string>)
    ensures var issue := Cap(deep, spent, text);
            && CapAll(deep, spent, [text] + texts) == [issue] + CapAll(deep, spent + Cost(issue), texts)
            && TotalCost(CapAll(deep, spent, [text] + texts))
               == Cost(issue) + TotalCost(CapAll(deep, spent + Cost(issue), texts))
  {
    hide Cap, Cost;
    assert ([text] + texts)[1..] == texts;
    var issue := Cap(deep, spent, text);
    var later := CapAll(deep, spent + Cost(issue), texts);
    assert ([issue] + later)[1..] == later;
  }

  lemma {:induction false} CapAllNext(deep: bool, spent: nat, texts: seq<string>, text: string)
    ensures var issues := CapAll(deep, spent, texts);
            var issue := Cap(deep, spent + TotalCost(issues), text);
            && CapAll(deep, spent, texts + [text]) == issues + [issue]
            && TotalCost(CapAll(deep, spent, texts + [text])) == TotalCost(issues) + Cost(issue)
    decreases |texts|
  {
    hide Cap, Cost, CapAll, TotalCost;
    NothingSpent(deep, spent);
    if texts == [] {
      CapAllFirst(deep, spent, text, []);
      assert texts + [text] == [text] + [];
      NothingSpent(deep, spent + Cost(Cap(deep, spent, text)));
    } else {
      var first, rest := texts[0], texts[1..];
      var issue := Cap(deep, spent, first);
      assert texts == [first] + rest && texts + [text] == [first] + (rest + [text]);
      CapAllNext(deep, spent + Cost(issue), rest, text);
      CapAllFirst(deep, spent, first, rest);
      CapAllFirst(deep, spent, first, rest + [text]);
      Associative([issue], CapAll(deep, spent + Cost(issue), rest),
                  [Cap(deep, spent + TotalCost(CapAll(deep, spent, texts)), text)]);
    }
  }

  /** The outputs of calls, which are pairs of a tool's name and its output. */
  function OutputsOf(calls: seq<(string, string)>): (outputs: seq<string>)
    ensures |outputs| == |calls| && forall i | 0 <= i < |calls| :: outputs[i] == calls[i].1
  {
    seq(|calls|, i requires 0 <= i < |calls| => calls[i].1)
  }

  /** A run of calls of a recorder: each tool is booked, also if its output is withheld; the issues are those
      of the whole run, and the counter is their cost. */
  method InvokeEach(recorder: ToolCallRecorder, calls: seq<(string, string)>) returns (texts: seq<string>)
    requires recorder.returnedChars == 0 && recorder.toolsUsed == []
    modifies recorder`returnedChars, recorder`toolsUsed
    ensures var issues := BoundAll(recorder.deep, recorder.secrets, OutputsOf(calls));
            && recorder.returnedChars == TotalCost(issues)
            && |recorder.toolsUsed| == |texts| == |calls|
            && forall i | 0 <= i < |calls| ::
                 recorder.toolsUsed[i] == calls[i].0 && texts[i] == Text(issues[i], recorder.notice)
  {
    hide Cap, Cost, Redact, CapAll, TotalCost;
    ghost var deep, redacted := recorder.deep, RedactAll(OutputsOf(calls), recorder.secrets);
    texts := [];
    NothingSpent(deep, 0);
    for i := 0 to |calls|
      invariant recorder.returnedChars == TotalCost(CapAll(deep, 0, redacted[..i]))
      invariant |texts| == |recorder.toolsUsed| == i
      invariant forall k | 0 <= k < i :: recorder.toolsUsed[k] == calls[k].0
      invariant forall k | 0 <= k < i :: texts[k] == Text(CapAll(deep, 0, redacted[..i])[k], recorder.notice)
    {
      CapAllNext(deep, 0, redacted[..i], redacted[i]);
      assert redacted[..i + 1] == redacted[..i] + [redacted[i]];
      var text := recorder.Invoke(calls[i].0, calls[i].1);
      texts := texts + [text];
    }
    assert redacted[..|calls|] == redacted;
  }

  lemma NothingSpent(deep: bool, spent: nat)
    ensures CapAll(deep, spent, []) == [] && TotalCost([]) == 0
  {
  }

  /** What one call can do to the budget. */
  lemma CapSpends(deep: bool, spent: nat, text: string)
    requires spent <= HistoryBudget(deep) + 33
    ensures var issue := Cap(deep, spent, text);
            && spent + Cost(issue) <= HistoryBudget(deep) + 33
            && (issue.Compacted? ==> spent + Cost(issue) >= HistoryBudget(deep) + 32)
            && (issue.Whole? ==> issue.text == text && spent + Cost(issue) <= HistoryBudget(deep))
            && (issue.Withheld? <==> spent + ResultFloor(deep) > HistoryBudget(deep))
  {
    var remaining := HistoryBudget(deep) - spent;
    if remaining >= ResultFloor(deep) && |text| > remaining {
      BoundedLength(text, remaining);
    }
  }

  lemma {:induction false} CapAllHolds(deep: bool, spent: nat, texts: seq<string>)
    requires spent <= HistoryBudget(deep) + 33
    ensures spent + TotalCost(CapAll(deep, spent, texts)) <= HistoryBudget(deep) + 33
    decreases |texts|
  {
    if texts != [] {
      CapSpends(deep, spent, texts[0]);
      var issue := Cap(deep, spent, texts[0]);
      CapAllHolds(deep, spent + Cost(issue), texts[1..]);
      var later := CapAll(deep, spent + Cost(issue), texts[1..]);
      assert ([issue] + later)[1..] == later;
    }
  }

  /** The i-th issue, in terms of what had been spent before it. */
  lemma {:induction false} CapAt(deep: bool, spent: nat, texts: seq<string>, i: nat) returns (before: nat)
    requires i < |texts|
    ensures CapAll(deep, spent, texts)[i] == Cap(deep, before, texts[i])
    ensures before >= spent && (i > 0 ==> before >= spent + Cost(Cap(deep, spent, texts[0])))
    decreases |texts|
  {
    hide Bounded;
    if i == 0 {
      before := spent;
    } else {
      var rest, next := texts[1..], spent + Cost(Cap(deep, spent, texts[0]));
      assert CapAll(deep, spent, texts)[i] == CapAll(deep, next, rest)[i - 1] && texts[i] == rest[i - 1];
      before := CapAt(deep, next, rest, i - 1);
    }
  }

  lemma {:induction false} CapOrder(deep: bool, spent: nat, texts: seq<string>, i: nat, j: nat)
    requires spent <= HistoryBudget(deep) + 33 && i < j < |texts|
    ensures var issues := CapAll(deep, spent, texts);
            if issues[i].Whole? then issues[i].text == texts[i] else issues[j].Withheld?
    decreases |texts|
  {
    hide Bounded;
    var issue := Cap(deep, spent, texts[0]);
    CapSpends(deep, spent, texts[0]);
    if i == 0 {
      var before := CapAt(deep, spent, texts, j);
    } else {
      var rest, later := texts[1..], CapAll(deep, spent + Cost(issue), texts[1..]);
      assert CapAll(deep, spent, texts)[i] == later[i - 1] && texts[i] == rest[i - 1];
      assert CapAll(deep, spent, texts)[j] == later[j - 1];
      CapOrder(deep, spent + Cost(issue), rest, i - 1, j - 1);
    }
  }

  /** Over any run of calls the budget is overshot by at most the marker. */
  lemma BudgetHolds(deep: bool, secrets: seq<Pattern>, outputs: seq<string>)
    ensures TotalCost(BoundAll(deep, secrets, outputs)) <= (if deep then 240_000 else 120_000) + 33
  {
    CapAllHolds(deep, 0, RedactAll(outputs, secrets));
  }

  /** Over any run of calls: what comes first is handed over whole, redacted; from the first output
      that is shortened or withheld on, everything is withheld. */
  lemma WholeThenWithheld(deep: bool, secrets: seq<Pattern>, outputs: seq<string>, i: nat, j: nat)
    requires i < j < |outputs|
    ensures var issues := BoundAll(deep, secrets, outputs);
            if issues[i].Whole? then issues[i].text == Redact(outputs[i], secrets) else issues[j].Withheld?
  {
    CapOrder(deep, 0, RedactAll(outputs, secrets), i, j);
  }

  lemma {:induction false} CapAllFront(deep: bool, spent: nat, texts: seq<string>, i: nat)
    requires i <= |texts|
    ensures CapAll(deep, spent, texts)[..i] == CapAll(deep, spent, texts[..i])
    decreases |texts| - i
  {
    hide Cap, Cost;
    if i < |texts| {
      CapAllFront(deep, spent, texts, i + 1);
      assert texts[..i + 1] == texts[..i] + [texts[i]];
      CapAllNext(deep, spent, texts[..i], texts[i]);
      var front := CapAll(deep, spent, texts[..i]);
      assert CapAll(deep, spent, texts)[..i] == CapAll(deep, spent, texts)[..i + 1][..i] == front;
    } else {
      assert texts[..i] == texts;
    }
  }

  /** What becomes of the i-th output of a run, with the characters that are left for it: it is withheld exactly
      if they are less than 2000, or 4000 in a deep scan; it is whole exactly if they are enough; and otherwise it
      is shortened to them. */
  lemma IssuedExactly(deep: bool, secrets: seq<Pattern>, outputs: seq<string>, i: nat)
    requires i < |outputs|
    ensures var issues, text := BoundAll(deep, secrets, outputs), Redact(outputs[i], secrets);
            var left := (if deep then 240_000 else 120_000) - TotalCost(issues[..i]);
            if left < (if deep then 4_000 else 2_000) then issues[i] == Withheld
            else if |text| <= left then issues[i] == Whole(text)
            else issues[i] == Compacted(Bounded(text, left))
  {
    hide Redact, Bounded;
    var texts := RedactAll(outputs, secrets);
    CapAllFront(deep, 0, texts, i);
    CapAllFront(deep, 0, texts, i + 1);
    CapAllNext(deep, 0, texts[..i], texts[i]);
    assert texts[..i + 1] == texts[..i] + [texts[i]];
    var issues := BoundAll(deep, secrets, outputs);
    assert issues[..i + 1][i] == issues[i];
  }

  /** At most one output of a run is shortened. */
  lemma AtMostOneCompacted(deep: bool, secrets: seq<Pattern>, outputs: seq<string>, i: nat, j: nat)
    requires i < |outputs| && j < |outputs|
    requires BoundAll(deep, secrets, outputs)[i].Compacted? && BoundAll(deep, secrets, outputs)[j].Compacted?
    ensures i == j
  {
    if i < j {
      WholeThenWithheld(deep, secrets, outputs, i, j);
    } else if j < i {
      WholeThenWithheld(deep, secrets, outputs, j, i);
    }
  }

  /** The overshoot of 33 characters is reached by a first output that does not fit. */
  lemma OvershootReached(deep: bool, output: string)
    requires |output| > if deep then 240_000 else 120_000
    ensures TotalCost(BoundAll(deep, [], [output])) == (if deep then 240_000 else 120_000) + 33
  {
    BoundedLength(output, HistoryBudget(deep));
    var issue := Cap(deep, 0, output);
    assert RedactAll([output], []) == [output];
    assert CapAll(deep, 0, [output]) == [issue] + CapAll(deep, Cost(issue), [output][1..]);
    assert TotalCost([issue]) == Cost(issue);
  }

  /** No output of any run shows a credential that is apart from the two marks and not in the notice. */
  lemma NoCredentialLeaves(deep: bool, secrets: seq<Pattern>, outputs: seq<string>, i: nat, s: Pattern)
    requires i < |outputs|
    requires s in secrets && Apart(s, REDACTED) && Apart(s, MARKER) && !Contains(WithheldNotice(), s)
    ensures !Contains(Text(BoundAll(deep, secrets, outputs)[i], WithheldNotice()), s)
  {
    RedactRemoves(outputs[i], secrets, s);
    var before := CapAt(deep, 0, RedactAll(outputs, secrets), i);
    CapCreatesNothing(deep, before, Redact(outputs[i], secrets), s);
  }

  lemma CapCreatesNothing(deep: bool, spent: nat, text: string, s: Pattern)
    requires Apart(s, MARKER) && !Contains(WithheldNotice(), s) && !Contains(text, s)
    ensures !Contains(Text(Cap(deep, spent, text), WithheldNotice()), s)
  {
    var issue := Cap(deep, spent, text);
    if issue.Compacted? && Contains(issue.text, s) {
      ElideCreatesNothing(text, HistoryBudget(deep) - spent, MARKER, s);
    }
  }

  /** The shape a credential usually has is enough: no bracket, no line break, and not a piece of
      one of the three fixed texts. */
  lemma OrdinaryCredentialNeverLeaves(deep: bool, secrets: seq<Pattern>, outputs: seq<string>, i: nat, s: Pattern)
    requires i < |outputs|
    requires s in secrets && '[' !in s && ']' !in s && '\n' !in s
    requires !Contains(REDACTED, s) && !Contains(MARKER, s) && !Contains(WithheldNotice(), s)
    ensures !Contains(Text(BoundAll(deep, secrets, outputs)[i], WithheldNotice()), s)
  {
    PlainIsApart(s, REDACTED);
    PlainIsApart(s, MARKER);
    NoCredentialLeaves(deep, secrets, outputs, i, s);
  }

  // ---------------------------------------------------------------- why the order matters

  lemma {:induction false} RedactUntouched(text: string, secrets: seq<Pattern>)
    requires forall s | s in secrets :: !Contains(text, s)
    ensures Redact(text, secrets) == text
    decreases |secrets|
  {
    if secrets != [] {
      RedactUntouched(text, secrets[1..]);
    }
  }

  lemma OnlyItself(text: string, s: string)
    requires |text| <= |s|
    ensures Contains(text, s) ==> text == s
  {
  }

  /** No listed credential lies across the cut. */
  predicate CutsNone(text: string, cut: nat, secrets: seq<Pattern>) {
    forall s | s in secrets :: !Crosses(text, cut, s)
  }

  predicate AllApart(secrets: seq<Pattern>) {
    forall s | s in secrets :: Apart(s, REDACTED)
  }

  /** Where no credential lies across the cut, redacting the whole is redacting the parts. */
  lemma {:induction false} RedactJoin(x: string, y: string, secrets: seq<Pattern>)
    requires AllApart(secrets) && CutsNone(x + y, |x|, secrets)
    ensures Redact(x + y, secrets) == Redact(x, secrets) + Redact(y, secrets)
    decreases |secrets|
  {
    hide Apart, Crosses;
    if secrets != [] {
      var r, rest := secrets[0], secrets[1..];
      var x', y' := Replace(x, r, REDACTED), Replace(y, r, REDACTED);
      assert r in secrets && forall s | s in rest :: s in secrets;
      ReplaceJoin(x, y, r, REDACTED);
      forall s | s in rest
        ensures !Crosses(x' + y', |x'|, s)
      {
        CrossesAfterLeft(x, y, r, REDACTED, s);
        CrossesAfterRight(x', y, r, REDACTED, s);
      }
      RedactJoin(x', y', rest);
    }
  }

  /** A mark keeps what is on its two sides apart. */
  lemma RedactAround(a: string, b: string, secrets: seq<Pattern>)
    requires AllApart(secrets)
    ensures Redact(a + REDACTED + b, secrets) == Redact(a, secrets) + REDACTED + Redact(b, secrets)
  {
    hide Redact, Apart;
    var text := a + REDACTED + b;
    assert text == a + (REDACTED + b);
    forall s | s in secrets
      ensures !Crosses(text, |a|, s) && !Crosses(REDACTED + b, |REDACTED|, s) && !Contains(REDACTED, s)
    {
      MarkIsKept(a, b, s);
      MarkIsKept("", b, s);
      assert "" + REDACTED + b == REDACTED + b;
    }
    RedactJoin(a, REDACTED + b, secrets);
    RedactJoin(REDACTED, b, secrets);
    RedactUntouched(REDACTED, secrets);
    assert Redact(a, secrets) + (REDACTED + Redact(b, secrets)) == Redact(a, secrets) + REDACTED + Redact(b, secrets);
  }

  lemma MarkIsKept(a: string, b: string, s: Pattern)
    requires Apart(s, REDACTED)
    ensures var text := a + REDACTED + b;
            && !Crosses(text, |a|, s) && !Crosses(text, |a| + |REDACTED|, s) && !Contains(REDACTED, s)
  {
    hide Apart;
    forall p: nat
      ensures At(a + REDACTED + b, p, s) ==> p + |s| <= |a| || |a| + |REDACTED| <= p
      ensures !At(REDACTED, p, s)
    {
      if At(a + REDACTED + b, p, s) {
        ApartKeepsOff(a, REDACTED, b, s, p);
      }
      if At(REDACTED, p, s) {
        assert "" + REDACTED + "" == REDACTED;
        ApartKeepsOff("", REDACTED, "", s, p);
      }
    }
  }

  /** A credential between two texts that no listed one crosses into. */
  predicate StandsApart(a: string, s: string, b: string, secrets: seq<Pattern>) {
    CutsNone(a + s + b, |a|, secrets) && CutsNone(a + s + b, |a| + |s|, secrets)
  }

  lemma ReplaceThree(a: string, s: string, b: string, r: Pattern, mark: string)
    requires StandsApart(a, s, b, [r])
    ensures Replace(a + s + b, r, mark) == Replace(a, r, mark) + Replace(s, r, mark) + Replace(b, r, mark)
  {
    hide Crosses, Replace;
    assert r in [r] && a + s + b == a + (s + b);
    ReplaceJoin(a + s, b, r, mark);
    FrontCrosses(a, s, b, r);
    ReplaceJoin(a, s, r, mark);
  }

  lemma FrontCrosses(a: string, s: string, b: string, r: Pattern)
    ensures Crosses(a + s, |a|, r) ==> Crosses(a + s + b, |a|, r)
  {
    if p :| 0 <= p < |a| && |a| < p + |r| && At(a + s, p, r) {
      assert (a + s + b)[p..p + |r|] == (a + s)[p..p + |r|];
      assert At(a + s + b, p, r);
    }
  }

  /** Replacing another credential on the two sides brings nothing across the ends. */
  lemma StandsApartAfter(a: string, s: string, b: string, r: Pattern, secrets: seq<Pattern>)
    requires AllApart(secrets) && StandsApart(a, s, b, [r] + secrets) && !Contains(s, r)
    ensures var a', b' := Replace(a, r, REDACTED), Replace(b, r, REDACTED);
            StandsApart(a', s, b', secrets) && Replace(a + s + b, r, REDACTED) == a' + s + b'
  {
    hide Crosses, Replace, Apart;
    var a', b' := Replace(a, r, REDACTED), Replace(b, r, REDACTED);
    assert r in [r] + secrets && forall t | t in secrets :: t in [r] + secrets;
    ReplaceThree(a, s, b, r, REDACTED);
    ReplaceAt(s, r, REDACTED);
    FrontCrosses(a, s, b, r);
    ReplaceJoin(a, s, r, REDACTED);
    BackCrosses(a, s, b, r);
    ReplaceJoin(s, b, r, REDACTED);
    forall t | t in secrets
      ensures !Crosses(a' + s + b', |a'|, t) && !Crosses(a' + s + b', |a'| + |s|, t)
    {
      assert a + s + b == a + (s + b) && a' + s + b' == a' + (s + b');
      CrossesAfterLeft(a, s + b, r, REDACTED, t);
      CrossesAfterRight(a', s + b, r, REDACTED, t);
      CrossesAfterLeft(a + s, b, r, REDACTED, t);
      CrossesAfterRight(a' + s, b, r, REDACTED, t);
    }
  }

  lemma BackCrosses(a: string, s: string, b: string, r: Pattern)
    ensures Crosses(s + b, |s|, r) ==> Crosses(a + s + b, |a| + |s|, r)
  {
    assert (a + s)[|a|..] == s;
    SuffixCrosses(a + s, b, |a|, r);
  }

  /** Longest first, a credential that contains other ones is replaced as a whole, wherever it is in an
      output: unless it lies across an end of itself, or one that comes earlier in the list does. A later one
      may, but it is too late. */
  lemma {:induction false} LongestFirstReplacesWhole(a: string, b: string, secrets: seq<Pattern>, i: nat)
    requires IsSecretList(secrets) && i < |secrets| && AllApart(secrets)
    requires StandsApart(a, secrets[i], b, secrets[..i + 1])
    ensures Redact(a + secrets[i] + b, secrets) == Redact(a, secrets) + REDACTED + Redact(b, secrets)
    decreases |secrets|
  {
    hide Crosses, Apart, Replace, Contains, StandsApart, Redact, IsSecretList, AllApart;
    var s, r, rest := secrets[i], secrets[0], secrets[1..];
    var a', b' := Replace(a, r, REDACTED), Replace(b, r, REDACTED);
    RestOfList(secrets);
    RedactFirst(a, secrets);
    RedactFirst(b, secrets);
    RedactFirst(a + s + b, secrets);
    if i == 0 {
      assert secrets[..1] == [s];
      ReplaceThree(a, s, b, s, REDACTED);
      ReplaceFront(s, "", REDACTED);
      assert s + "" == s && REDACTED + "" == REDACTED;
      RedactAround(a', b', rest);
    } else {
      assert secrets[..i + 1] == [r] + rest[..i] && rest[i - 1] == s;
      EarlierIsNotIn(secrets, i);
      FirstOfList(rest, i);
      StandsApartAfter(a, s, b, r, rest[..i]);
      LongestFirstReplacesWhole(a', b', rest, i - 1);
    }
  }

  lemma RedactFirst(text: string, secrets: seq<Pattern>)
    requires secrets != []
    ensures Redact(text, secrets) == Redact(Replace(text, secrets[0], REDACTED), secrets[1..])
  {
  }

  lemma RestOfList(secrets: seq<Pattern>)
    requires secrets != [] && IsSecretList(secrets) && AllApart(secrets)
    ensures IsSecretList(secrets[1..]) && AllApart(secrets[1..])
  {
    hide Apart;
    assert forall t | t in secrets[1..] :: t in secrets;
  }

  lemma FirstOfList(secrets: seq<Pattern>, i: nat)
    requires i <= |secrets| && AllApart(secrets)
    ensures AllApart(secrets[..i])
  {
    hide Apart;
    assert forall t | t in secrets[..i] :: t in secrets;
  }

  lemma EarlierIsNotIn(secrets: seq<Pattern>, i: nat)
    requires IsSecretList(secrets) && 0 < i < |secrets|
    ensures !Contains(secrets[i], secrets[0])
  {
    OnlyItself(secrets[i], secrets[0]);
  }

  lemma NotIn(text: string, s: Pattern, c: char)
    requires c in s && c !in text
    ensures !Contains(text, s)
  {
    var d :| 0 <= d < |s| && s[d] == c;
    forall i | 0 <= i <= |text| - |s|
      ensures !At(text, i, s)
    {
      AtChars(text, i, s);
    }
  }

  lemma ReplaceFront(s: Pattern, rest: string, mark: string)
    requires |rest| < |s|
    ensures Replace(s + rest, s, mark) == mark + rest
  {
    hide Replace, Find;
    var t := s + rest;
    assert t[0..0 + |s|] == s && At(t, 0, s);
    assert t[|s|..] == rest && t[..0] == "" && "" + mark == mark;
    ReplaceAt(t, s, mark);
    ReplaceAt(rest, s, mark);
  }

  /** A credential at the front, and nothing of the others in what is left. */
  lemma RedactFront(s: Pattern, rest: string, others: seq<Pattern>)
    requires |rest| < |s| && forall t | t in others :: !Contains(REDACTED + rest, t)
    ensures Redact(s + rest, [s] + others) == REDACTED + rest
  {
    hide Contains;
    ReplaceFront(s, rest, REDACTED);
    assert ([s] + others)[1..] == others;
    RedactUntouched(REDACTED + rest, others);
  }

  /** A longer credential that overlaps the front of s leaves the tail of s behind, although the list is
      longest first, and s contains another credential. */
  lemma OverlapLeavesTail(long: Pattern, s: Pattern, t: Pattern, front: string, x: string, rest: string, c: char)
    requires MIN_SECRET_LEN <= |t| < |s| < |long| && |rest| < |long|
    requires long + rest == front + s && s == x + t && c in t && c !in REDACTED + rest
    ensures IsSecretList([long, s, t]) && Contains(long + rest, s) && Contains(s, t)
    ensures Redact(long + rest, [long, s, t]) == REDACTED + rest
  {
    hide Redact, Contains;
    assert c in s;
    NotIn(REDACTED + rest, s, c);
    NotIn(REDACTED + rest, t, c);
    RedactFront(long, rest, [s, t]);
    assert [long, s, t] == [long] + [s, t];
    TailInside(front, s);
    TailInside(x, t);
  }

  /** For example. */
  lemma OverlapExample()
    ensures var secrets: seq<Pattern> := ["XXXXXXabcd", "abcdefgh1", "bcdefgh1"];
            IsSecretList(secrets) && Redact("XXXXXXabcdefgh1", secrets) == "[redacted]efgh1"
  {
    hide Redact, IsSecretList;
    var long, s, t := "XXXXXXabcd", "abcdefgh1", "bcdefgh1";
    assert "XXXXXXabcdefgh1" == long + "efgh1" == "XXXXXX" + s;
    assert s == "a" + t && t[0] == 'b';
    OverlapLeavesTail(long, s, t, "XXXXXX", "a", "efgh1", 'b');
  }

  lemma TailInside(front: string, s: Pattern)
    ensures Contains(front + s, s)
  {
    assert (front + s)[|front|..|front| + |s|] == s;
    assert At(front + s, |front|, s);
  }
}
