/** Picking the error lines out of a build console.
    Models extract_error_lines in src/jenkins_watchdog/clients/log_analysis.py. */
module LogLines {

  const KEY_CHARS := 120
  const CUT_CHARS := 500
  const MIN_CHARS := 5

  /** Python's str.splitlines and str.strip, and the two regular expressions. */
  datatype Rules = Rules(splitLines: string -> seq<string>, strip: string -> string,
                         isNoise: string -> bool, isError: string -> bool)

  function Prefix(line: string, n: nat): string {
    if |line| <= n then line else line[..n]
  }

  /** Two lines with the same key count as the same line. */
  function Key(line: string): string {
    Prefix(line, KEY_CHARS)
  }

  function Cut(line: string): string {
    Prefix(line, CUT_CHARS)
  }

  function CutAll(lines: seq<string>): (r: seq<string>)
    ensures |r| == |lines| && forall i | 0 <= i < |lines| :: r[i] == Cut(lines[i])
  {
    seq(|lines|, i requires 0 <= i < |lines| => Cut(lines[i]))
  }

  function Keys(lines: seq<string>): set<string> {
    set line | line in lines :: Key(line)
  }

  // ---------------------------------------------------------------- what the result should be

  predicate IsErrorLine(line: string, rules: Rules) {
    var stripped := rules.strip(line);
    |stripped| >= MIN_CHARS && !rules.isNoise(stripped) && rules.isError(stripped)
  }

  predicate IsQuietLine(line: string, rules: Rules) {
    var stripped := rules.strip(line);
    stripped != "" && !rules.isNoise(stripped)
  }

  /** The stripped lines that match the error expression, in console order. */
  function ErrorCandidates(lines: seq<string>, rules: Rules): seq<string> {
    if lines == [] then []
    else (if IsErrorLine(lines[0], rules) then [rules.strip(lines[0])] else []) + ErrorCandidates(lines[1..], rules)
  }

  /** The stripped lines that are neither blank nor noise, in console order. */
  function QuietLines(lines: seq<string>, rules: Rules): seq<string> {
    if lines == [] then []
    else (if IsQuietLine(lines[0], rules) then [rules.strip(lines[0])] else []) + QuietLines(lines[1..], rules)
  }

  /** Drop every line that has a later line with the same key. */
  function KeepLast(lines: seq<string>): seq<string> {
    if lines == [] then []
    else if Key(lines[0]) in Keys(lines[1..]) then KeepLast(lines[1..])
    else [lines[0]] + KeepLast(lines[1..])
  }

  /** Drop every line whose key is in `seen` or belongs to an earlier line. */
  function KeepFirst(lines: seq<string>, seen: set<string>): seq<string> {
    if lines == [] then []
    else if Key(lines[0]) in seen then KeepFirst(lines[1..], seen)
    else [lines[0]] + KeepFirst(lines[1..], seen + {Key(lines[0])})
  }

  function Take(lines: seq<string>, n: nat): seq<string> {
    if |lines| <= n then lines else lines[..n]
  }

  function LastN(lines: seq<string>, n: nat): seq<string> {
    if |lines| <= n then lines else lines[|lines| - n..]
  }

  function Reverse<T>(s: seq<T>): (r: seq<T>)
    ensures |r| == |s|
    ensures forall i | 0 <= i < |s| :: r[i] == s[|s| - 1 - i]
  {
    if s == [] then [] else Reverse(s[1..]) + [s[0]]
  }

  /** The limit is compared after a line is added, so one line gets through even at limit 0. */
  function Limit(maxLines: int): nat {
    if maxLines < 1 then 1 else maxLines
  }

  /** If some line matches the error expression: the last occurrence of each key, the last of those
      up to the limit, in console order. Otherwise: the last quiet lines up to the limit, the first
      occurrence of each key among them, latest first. */
  function ErrorLines(lines: seq<string>, rules: Rules, maxLines: int): seq<string> {
    var candidates := ErrorCandidates(lines, rules);
    if candidates != [] then CutAll(LastN(KeepLast(candidates), Limit(maxLines)))
    else CutAll(Reverse(KeepFirst(LastN(QuietLines(lines, rules), Limit(maxLines)), {})))
  }

  // ---------------------------------------------------------------- sorting

  type Candidate = (nat, string)

  /** Python's stable `sorted(..., key=index, reverse=True)`. */
  function SortDescending(c: seq<Candidate>): seq<Candidate> {
    if c == [] then [] else Insert(c[0], SortDescending(c[1..]))
  }

  function Insert(x: Candidate, c: seq<Candidate>): seq<Candidate> {
    if c == [] || c[0].0 <= x.0 then [x] + c else [c[0]] + Insert(x, c[1..])
  }

  lemma {:induction false} InsertLast(x: Candidate, c: seq<Candidate>)
    requires forall i | 0 <= i < |c| :: c[i].0 > x.0
    ensures Insert(x, c) == c + [x]
  {
    if c != [] {
      InsertLast(x, c[1..]);
      assert [c[0]] + (c[1..] + [x]) == c + [x];
    }
  }

  lemma {:induction false} SortAscending(c: seq<Candidate>)
    requires forall i, j | 0 <= i < j < |c| :: c[i].0 < c[j].0
    ensures SortDescending(c) == Reverse(c)
  {
    if c != [] {
      SortAscending(c[1..]);
      InsertLast(c[0], Reverse(c[1..]));
    }
  }

  lemma {:induction false} SortTies(c: seq<Candidate>, index: nat)
    requires forall i | 0 <= i < |c| :: c[i].0 == index
    ensures SortDescending(c) == c
  {
    if c != [] {
      SortTies(c[1..], index);
      assert [c[0]] + c[1..] == c;
    }
  }

  function Lines(c: seq<Candidate>): (r: seq<string>)
    ensures |r| == |c| && forall i | 0 <= i < |c| :: r[i] == c[i].1
  {
    seq(|c|, i requires 0 <= i < |c| => c[i].1)
  }

  // ---------------------------------------------------------------- the loops

  method ScanErrors(lines: seq<string>, rules: Rules) returns (candidates: seq<Candidate>)
    ensures Lines(candidates) == ErrorCandidates(lines, rules)
    ensures forall i, j | 0 <= i < j < |candidates| :: candidates[i].0 < candidates[j].0
  {
    candidates := [];
    for i := 0 to |lines|
      invariant Lines(candidates) == ErrorCandidates(lines[..i], rules)
      invariant forall k | 0 <= k < |candidates| :: candidates[k].0 < i
      invariant forall k, l | 0 <= k < l < |candidates| :: candidates[k].0 < candidates[l].0
    {
      ErrorCandidatesAppend(lines[..i], lines[i], rules);
      assert lines[..i + 1] == lines[..i] + [lines[i]];
      var stripped := rules.strip(lines[i]);
      if |stripped| < MIN_CHARS || rules.isNoise(stripped) {
        continue;
      }
      if rules.isError(stripped) {
        candidates := candidates + [(i, stripped)];
      }
    }
    assert lines[..|lines|] == lines;
  }

  lemma {:induction false} ErrorCandidatesAppend(lines: seq<string>, line: string, rules: Rules)
    ensures ErrorCandidates(lines + [line], rules)
         == ErrorCandidates(lines, rules) + (if IsErrorLine(line, rules) then [rules.strip(line)] else [])
  {
    if lines == [] {
      assert lines + [line] == [line];
    } else {
      ErrorCandidatesAppend(lines[1..], line, rules);
      assert (lines + [line])[1..] == lines[1..] + [line];
    }
  }

  /** The fallback: walk backwards until the limit is reached, then turn round. */
  method ScanQuiet(lines: seq<string>, rules: Rules, maxLines: int) returns (candidates: seq<Candidate>)
    ensures Lines(candidates) == LastN(QuietLines(lines, rules), Limit(maxLines))
    ensures forall i | 0 <= i < |candidates| :: candidates[i].0 == |lines|
  {
    candidates := [];
    var i := |lines|;
    ghost var quiet: seq<string> := [];
    while i > 0
      invariant 0 <= i <= |lines|
      invariant quiet == QuietLines(lines[i..], rules) && |quiet| == |candidates|
      invariant Lines(Reverse(candidates)) == quiet
      invariant |candidates| < Limit(maxLines)
      invariant forall k | 0 <= k < |candidates| :: candidates[k].0 == |lines|
    {
      i := i - 1;
      QuietStep(lines, i, rules);
      var stripped := rules.strip(lines[i]);
      if stripped != "" && !rules.isNoise(stripped) {
        AddedInFront(candidates, (|lines|, stripped));
        candidates := candidates + [(|lines|, stripped)];
        quiet := [stripped] + quiet;
        if |candidates| >= maxLines {
          break;
        }
      }
    }
    QuietTail(lines, i, rules, Limit(maxLines));
    candidates := Reverse(candidates);
  }

  lemma QuietStep(lines: seq<string>, i: nat, rules: Rules)
    requires i < |lines|
    ensures QuietLines(lines[i..], rules)
         == (if IsQuietLine(lines[i], rules) then [rules.strip(lines[i])] else []) + QuietLines(lines[i + 1..], rules)
  {
    assert lines[i..][1..] == lines[i + 1..];
  }

  lemma QuietTail(lines: seq<string>, i: nat, rules: Rules, n: nat)
    requires i <= |lines|
    requires var quiet := QuietLines(lines[i..], rules); |quiet| == n || (i == 0 && |quiet| < n)
    ensures LastN(QuietLines(lines, rules), n) == QuietLines(lines[i..], rules)
  {
    QuietSuffix(lines, i, rules);
    assert lines[0..] == lines;
  }

  lemma AddedInFront(c: seq<Candidate>, x: Candidate)
    ensures Lines(Reverse(c + [x])) == [x.1] + Lines(Reverse(c))
  {
  }

  lemma {:induction false} QuietSuffix(lines: seq<string>, i: nat, rules: Rules)
    requires i <= |lines|
    ensures |QuietLines(lines[i..], rules)| <= |QuietLines(lines, rules)|
    ensures var all, rest := QuietLines(lines, rules), QuietLines(lines[i..], rules);
            rest == all[|all| - |rest|..]
  {
    if i > 0 {
      QuietSuffix(lines[1..], i - 1, rules);
      assert lines[1..][i - 1..] == lines[i..];
    }
  }

  /** The dedupe loop over an already sorted list. */
  method Dedupe(sorted: seq<string>, maxLines: int) returns (result: seq<string>)
    ensures result == CutAll(Take(KeepFirst(sorted, {}), Limit(maxLines)))
  {
    var seen: set<string> := {};
    result := [];
    ghost var kept: seq<string> := [];
    for i := 0 to |sorted|
      invariant kept + KeepFirst(sorted[i..], seen) == KeepFirst(sorted, {})
      invariant result == CutAll(kept)
      invariant |kept| < Limit(maxLines)
    {
      var line := sorted[i];
      assert sorted[i..][1..] == sorted[i + 1..];
      var key := Key(line);
      if key in seen {
        continue;
      }
      seen := seen + {key};
      assert kept + ([line] + KeepFirst(sorted[i + 1..], seen)) == (kept + [line]) + KeepFirst(sorted[i + 1..], seen);
      kept := kept + [line];
      result := result + [Cut(line)];
      if |result| >= maxLines {
        assert Take(KeepFirst(sorted, {}), Limit(maxLines)) == kept;
        return;
      }
    }
  }

  method ExtractErrorLines(console: string, rules: Rules, maxLines: int, tailChars: int) returns (result: seq<string>)
    ensures result == if console == "" then []
                      else ErrorLines(rules.splitLines(LogTail(console, tailChars)), rules, maxLines)
  {
    if console == "" {
      return [];
    }
    var lines := rules.splitLines(LogTail(console, tailChars));
    var candidates := ScanErrors(lines, rules);
    if candidates == [] {
      candidates := ScanQuiet(lines, rules, maxLines);
      TiedCandidates(candidates, lines, rules, maxLines);
    } else {
      AscendingCandidates(candidates, lines, rules, maxLines);
    }
    var sorted := SortDescending(candidates);
    result := Dedupe(Lines(sorted), maxLines);
    result := Reverse(result);
  }

  lemma AscendingCandidates(c: seq<Candidate>, lines: seq<string>, rules: Rules, maxLines: int)
    requires c != [] && Lines(c) == ErrorCandidates(lines, rules)
    requires forall i, j | 0 <= i < j < |c| :: c[i].0 < c[j].0
    ensures Reverse(CutAll(Take(KeepFirst(Lines(SortDescending(c)), {}), Limit(maxLines))))
         == ErrorLines(lines, rules, maxLines)
  {
    SortAscending(c);
    assert Lines(Reverse(c)) == Reverse(Lines(c));
    KeepLastBackwards(Lines(c));
    var kept := KeepLast(Lines(c));
    ReverseCut(Reverse(kept), Limit(maxLines));
    assert Reverse(Reverse(kept)) == kept;
  }

  lemma TiedCandidates(c: seq<Candidate>, lines: seq<string>, rules: Rules, maxLines: int)
    requires ErrorCandidates(lines, rules) == [] && Lines(c) == LastN(QuietLines(lines, rules), Limit(maxLines))
    requires forall i | 0 <= i < |c| :: c[i].0 == |lines|
    ensures Reverse(CutAll(Take(KeepFirst(Lines(SortDescending(c)), {}), Limit(maxLines))))
         == ErrorLines(lines, rules, maxLines)
  {
    SortTies(c, |lines|);
    KeepFirstShorter(Lines(c), {});
    assert |Lines(c)| <= Limit(maxLines);
    ReverseCut(KeepFirst(Lines(c), {}), Limit(maxLines));
  }

  /** Python's `console[-t:] if len(console) > t else console`; t = 0 keeps the whole console. */
  function LogTail(console: string, tailChars: int): string {
    if |console| <= tailChars || tailChars == 0 then console
    else if tailChars > 0 then console[|console| - tailChars..]
    else if |console| <= -tailChars then ""
    else console[-tailChars..]
  }

  /** What is looked at is the end of the console: all of a console that is not longer than asked for, and the
      last `tailChars` characters of a longer one; but all of it if none are asked for. */
  lemma TailIsEnd(console: string, tailChars: nat)
    ensures var tail := LogTail(console, tailChars);
            && |tail| <= |console| && console[|console| - |tail|..] == tail
            && |tail| == if tailChars == 0 || |console| < tailChars then |console| else tailChars
  {
  }

  // ---------------------------------------------------------------- the loops meet the specification

  lemma {:induction false} KeepFirstAppend(lines: seq<string>, line: string, seen: set<string>)
    ensures KeepFirst(lines + [line], seen)
         == KeepFirst(lines, seen) + (if Key(line) in seen + Keys(lines) then [] else [line])
  {
    if lines == [] {
      assert lines + [line] == [line];
    } else {
      var key := Key(lines[0]);
      assert (lines + [line])[1..] == lines[1..] + [line];
      assert Keys(lines) == {key} + Keys(lines[1..]) by {
        assert lines == [lines[0]] + lines[1..];
      }
      if key in seen {
        KeepFirstAppend(lines[1..], line, seen);
      } else {
        KeepFirstAppend(lines[1..], line, seen + {key});
      }
    }
  }

  /** Keeping first occurrences from the back is keeping last occurrences. */
  lemma {:induction false} KeepLastBackwards(lines: seq<string>)
    ensures KeepFirst(Reverse(lines), {}) == Reverse(KeepLast(lines))
  {
    if lines != [] {
      KeepLastBackwards(lines[1..]);
      var back := Reverse(lines[1..]);
      assert Keys(back) == Keys(lines[1..]) by {
        assert forall i | 0 <= i < |back| :: back[i] in lines[1..];
        assert forall i | 0 <= i < |lines[1..]| :: lines[1..][i] == back[|back| - 1 - i];
      }
      KeepFirstAppend(back, lines[0], {});
    }
  }

  lemma {:induction false} KeepFirstShorter(lines: seq<string>, seen: set<string>)
    ensures |KeepFirst(lines, seen)| <= |lines|
  {
    if lines != [] {
      KeepFirstShorter(lines[1..], seen);
      KeepFirstShorter(lines[1..], seen + {Key(lines[0])});
    }
  }

  lemma ReverseCut(lines: seq<string>, n: nat)
    ensures Reverse(CutAll(Take(lines, n))) == CutAll(LastN(Reverse(lines), n))
  {
    var a, b := Reverse(CutAll(Take(lines, n))), CutAll(LastN(Reverse(lines), n));
    assert |a| == |b| && forall i | 0 <= i < |a| :: a[i] == b[i];
  }

  // ---------------------------------------------------------------- what callers rely on

  lemma KeysOfFirst(line: string, lines: seq<string>)
    ensures Keys([line] + lines) == {Key(line)} + Keys(lines)
  {
  }

  predicate DistinctKeys(lines: seq<string>) {
    forall i, j | 0 <= i < j < |lines| :: Key(lines[i]) != Key(lines[j])
  }

  lemma {:induction false} KeepLastIsDistinct(lines: seq<string>)
    ensures DistinctKeys(KeepLast(lines)) && Keys(KeepLast(lines)) == Keys(lines)
  {
    if lines != [] {
      KeepLastIsDistinct(lines[1..]);
      var rest := KeepLast(lines[1..]);
      assert lines == [lines[0]] + lines[1..];
      KeysOfFirst(lines[0], lines[1..]);
      assert forall i | 0 <= i < |rest| :: Key(rest[i]) in Keys(rest);
      if Key(lines[0]) !in Keys(lines[1..]) {
        var kept := [lines[0]] + rest;
        assert forall i | 0 < i < |kept| :: kept[i] == rest[i - 1];
        KeysOfFirst(lines[0], rest);
      }
    }
  }

  lemma {:induction false} KeepFirstIsDistinct(lines: seq<string>, seen: set<string>)
    ensures DistinctKeys(KeepFirst(lines, seen)) && Keys(KeepFirst(lines, seen)) == Keys(lines) - seen
  {
    if lines != [] {
      var key := Key(lines[0]);
      assert lines == [lines[0]] + lines[1..];
      KeysOfFirst(lines[0], lines[1..]);
      if key in seen {
        KeepFirstIsDistinct(lines[1..], seen);
      } else {
        KeepFirstIsDistinct(lines[1..], seen + {key});
        var rest := KeepFirst(lines[1..], seen + {key});
        assert forall i | 0 <= i < |rest| :: Key(rest[i]) in Keys(rest);
        KeysOfFirst(lines[0], rest);
      }
    }
  }

  lemma CutKeepsKeys(lines: seq<string>)
    ensures forall i | 0 <= i < |lines| :: Key(CutAll(lines)[i]) == Key(lines[i])
  {
  }

  lemma PartIsDistinct(lines: seq<string>, n: nat)
    requires DistinctKeys(lines)
    ensures DistinctKeys(CutAll(LastN(lines, n))) && DistinctKeys(CutAll(Reverse(lines)))
  {
    CutKeepsKeys(LastN(lines, n));
    CutKeepsKeys(Reverse(lines));
  }

  lemma ResultIsDistinct(lines: seq<string>, rules: Rules, maxLines: int)
    ensures var r := ErrorLines(lines, rules, maxLines);
            && |r| <= Limit(maxLines)
            && DistinctKeys(r)
            && (r == [] <==> ErrorCandidates(lines, rules) == [] && QuietLines(lines, rules) == [])
  {
    var candidates := ErrorCandidates(lines, rules);
    if candidates != [] {
      KeepLastIsDistinct(candidates);
      PartIsDistinct(KeepLast(candidates), Limit(maxLines));
      assert Key(candidates[0]) in Keys(candidates);
    } else {
      var last := LastN(QuietLines(lines, rules), Limit(maxLines));
      KeepFirstIsDistinct(last, {});
      PartIsDistinct(KeepFirst(last, {}), 0);
      KeepFirstShorter(last, {});
      if last != [] {
        assert Key(last[0]) in Keys(last);
      }
    }
  }

  /** On both paths the limit holds, where one below 1 acts as 1; lines have at most 500 characters, and no two
      agree in their first 120. The result is empty only when there is neither an error line nor a quiet line. */
  lemma ResultIsBounded(lines: seq<string>, rules: Rules, maxLines: int)
    ensures var r := ErrorLines(lines, rules, maxLines);
            && |r| <= (if maxLines < 1 then 1 else maxLines)
            && (forall i | 0 <= i < |r| :: |r[i]| <= 500)
            && (forall i, j | 0 <= i < j < |r| :: r[i][..if |r[i]| < 120 then |r[i]| else 120]
                                              != r[j][..if |r[j]| < 120 then |r[j]| else 120])
            && (r == [] <==> ErrorCandidates(lines, rules) == [] && QuietLines(lines, rules) == [])
  {
    hide KeepLast, KeepFirst, ErrorCandidates, QuietLines, Reverse;
    ResultIsDistinct(lines, rules, maxLines);
    var r := ErrorLines(lines, rules, maxLines);
    forall i | 0 <= i < |r|
      ensures Key(r[i]) == r[i][..if |r[i]| < 120 then |r[i]| else 120]
    {
      assert r[i][..|r[i]|] == r[i];
    }
  }

  /** What is looked for: stripped lines of at least five characters that match the error expression and are no
      noise; or else stripped lines that are neither blank nor noise. */
  lemma {:induction false} CandidatesExactly(lines: seq<string>, rules: Rules, line: string)
    ensures line in ErrorCandidates(lines, rules) <==>
              exists i | 0 <= i < |lines| ::
                rules.strip(lines[i]) == line && |line| >= 5 && rules.isError(line) && !rules.isNoise(line)
    ensures line in QuietLines(lines, rules) <==>
              exists i | 0 <= i < |lines| :: rules.strip(lines[i]) == line && line != "" && !rules.isNoise(line)
  {
    if lines != [] {
      var rest := lines[1..];
      CandidatesExactly(rest, rules, line);
      assert forall i | 0 < i < |lines| :: lines[i] == rest[i - 1];
      if i :| 0 <= i < |rest| && rules.strip(rest[i]) == line {
        assert rules.strip(lines[i + 1]) == line;
      }
    }
  }

  /** The line limit as the caller states it is kept for every console exactly when it is positive. */
  lemma LimitExact(maxLines: int)
    ensures (forall lines: seq<string>, rules: Rules :: |ErrorLines(lines, rules, maxLines)| <= maxLines) <==> maxLines >= 1
  {
    if maxLines >= 1 {
      forall lines: seq<string>, rules: Rules
        ensures |ErrorLines(lines, rules, maxLines)| <= maxLines
      {
        ResultIsBounded(lines, rules, maxLines);
      }
    } else {
      var rules := Rules(text => [text], line => line, line => false, line => true);
      ResultIsBounded(["BUILD FAILED"], rules, maxLines);
      assert IsErrorLine("BUILD FAILED", rules);
      assert |ErrorLines(["BUILD FAILED"], rules, maxLines)| > maxLines;
    }
  }

  lemma {:induction false} KeepLastEnds(lines: seq<string>)
    requires lines != []
    ensures KeepLast(lines) != [] && KeepLast(lines)[|KeepLast(lines)| - 1] == lines[|lines| - 1]
  {
    if |lines| > 1 {
      KeepLastEnds(lines[1..]);
    }
  }

  /** With errors present nothing recent is lost: the kept lines are, in console order, the last
      ones of their key, any key that was dropped occurs only before all of them, and the last line of the
      result is the last error line. */
  lemma LatestErrorsKept(lines: seq<string>, rules: Rules, maxLines: int)
    requires ErrorCandidates(lines, rules) != []
    ensures var candidates := ErrorCandidates(lines, rules);
            var all := KeepLast(candidates);
            var r := ErrorLines(lines, rules, maxLines);
            && r == CutAll(all[|all| - |r|..])
            && Keys(all) == Keys(candidates)
            && (|r| < Limit(maxLines) ==> |r| == |all|)
            && r != [] && r[|r| - 1] == Cut(candidates[|candidates| - 1])
  {
    hide KeepLast, KeepFirst, ErrorCandidates, QuietLines, Keys, Reverse;
    KeepLastIsDistinct(ErrorCandidates(lines, rules));
    KeepLastEnds(ErrorCandidates(lines, rules));
    var all := KeepLast(ErrorCandidates(lines, rules));
    assert all[0..] == all;
  }
}
