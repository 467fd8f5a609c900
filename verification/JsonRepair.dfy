/** Closing a JSON text that was cut off, by counting its delimiters.
    Models _repair_truncated_json in src/jenkins_watchdog/reasoning/engine.py. */
module JsonRepair {
  import opened Sequences
  import opened Strings

  // ---------------------------------------------------------------- reading delimiters

  datatype Mode = Outside | Inside | Escaped

  /** How far a reader of delimiters has come: whether it is inside a string, which delimiters are
      open (outermost first), whether one has been closed out of turn, and whether every string so
      far is plain: without delimiters and without escapes. */
  datatype Scan = Scan(mode: Mode, stack: string, broken: bool, plain: bool)

  predicate IsDelimiter(c: char) {
    c == '{' || c == '}' || c == '[' || c == ']'
  }

  predicate IsStructural(c: char) {
    IsDelimiter(c) || c == '"' || c == '\\'
  }

  function Step(s: Scan, c: char): Scan {
    match s.mode
    case Escaped => s.(mode := Inside)
    case Inside =>
      if c == '"' then s.(mode := Outside)
      else if c == '\\' then s.(mode := Escaped, plain := false)
      else if IsDelimiter(c) then s.(plain := false)
      else s
    case Outside =>
      if c == '"' then s.(mode := Inside)
      else if c == '{' || c == '[' then s.(stack := s.stack + [c])
      else if c == '}' then Pop(s, '{')
      else if c == ']' then Pop(s, '[')
      else s
  }

  function Pop(s: Scan, open: char): Scan {
    if s.stack != "" && s.stack[|s.stack| - 1] == open then s.(stack := s.stack[..|s.stack| - 1])
    else s.(broken := true)
  }

  function Fold(s: Scan, text: string): Scan {
    if text == "" then s else Step(Fold(s, text[..|text| - 1]), text[|text| - 1])
  }

  const START := Scan(Outside, "", false, true)

  function Read(text: string): Scan {
    Fold(START, text)
  }

  predicate IsClosed(s: Scan) {
    s.mode == Outside && s.stack == "" && !s.broken
  }

  /** Every string is ended, and the delimiters are nested properly and all closed. */
  predicate Closed(text: string) {
    IsClosed(Read(text))
  }

  lemma {:induction false} FoldJoin(s: Scan, a: string, b: string)
    ensures Fold(s, a + b) == Fold(Fold(s, a), b)
  {
    if b == "" {
      assert a + b == a;
    } else {
      FoldJoin(s, a, b[..|b| - 1]);
      assert (a + b)[..|a + b| - 1] == a + b[..|b| - 1];
    }
  }

  lemma FoldOne(s: Scan, a: string, c: char)
    ensures Fold(s, a + [c]) == Step(Fold(s, a), c)
  {
    assert (a + [c])[..|a|] == a;
  }

  /** A text inside a string, with escapes before quotes and backslashes. */
  function Escape(text: string): string {
    if text == "" then ""
    else
      var c := text[|text| - 1];
      Escape(text[..|text| - 1]) + if c == '"' || c == '\\' then ['\\', c] else [c]
  }

  /** Whatever a string holds, the reader is after it where it was before it. */
  lemma StringIsSkipped(s: Scan, text: string)
    requires s.mode == Outside
    ensures Fold(s, "\"" + Escape(text) + "\"").(plain := s.plain) == s
  {
    hide Fold, Escape;
    var begun := Fold(s, "\"");
    FoldOne(s, "", '"');
    assert "" + ['"'] == "\"" && Fold(s, "") == s by {
      FoldNone(s);
    }
    InsideStays(begun, text);
    FoldJoin(s, "\"", Escape(text));
    FoldOne(s, "\"" + Escape(text), '"');
  }

  lemma {:induction false} InsideStays(s: Scan, text: string)
    requires s.mode == Inside
    ensures Fold(s, Escape(text)).(plain := s.plain) == s
  {
    if text != "" {
      var front, c := Escape(text[..|text| - 1]), text[|text| - 1];
      InsideStays(s, text[..|text| - 1]);
      if c == '"' || c == '\\' {
        FoldOne(s, front, '\\');
        FoldOne(s, front + ['\\'], c);
        assert front + ['\\', c] == front + ['\\'] + [c];
      } else {
        FoldOne(s, front, c);
      }
    }
  }

  // ---------------------------------------------------------------- the repair

  function Count(text: string, c: char): nat {
    if text == "" then 0
    else Count(text[..|text| - 1], c) + (if text[|text| - 1] == c then 1 else 0)
  }

  /** Python's `c * n`, which is empty for a negative n. */
  function Repeat(c: char, n: int): string
    decreases n
  {
    if n <= 0 then "" else Repeat(c, n - 1) + [c]
  }

  function Trim(text: string, isSpace: char -> bool): string {
    var stripped := StripRight(text, isSpace);
    if stripped != "" && stripped[|stripped| - 1] == ',' then stripped[..|stripped| - 1] else stripped
  }

  predicate EndsInQuote(text: string) {
    text != "" && text[|text| - 1] == '"'
  }

  function Append(text: string, quote: bool, k: int, b: int): string {
    (if quote then text + "\"" else text) + Repeat(']', k) + Repeat('}', b)
  }

  function Repaired(text: string, isSpace: char -> bool): string {
    var t := Trim(text, isSpace);
    var quote := !EndsInQuote(t) && Count(t, '"') % 2 == 1;
    Append(t, quote, Count(t, '[') - Count(t, ']'), Count(t, '{') - Count(t, '}'))
  }

  /** `parse` is json.loads, with None for its JSONDecodeError. */
  method RepairTruncatedJson<T>(text: string, parse: string -> Option<T>, isSpace: char -> bool) returns (r: Option<T>)
    ensures r == if parse(text).Some? then parse(text) else parse(Repaired(text, isSpace))
  {
    r := parse(text);
    if r.Some? {
      return;
    }
    var repaired := StripRight(text, isSpace);
    if repaired != "" && repaired[|repaired| - 1] == ',' {
      repaired := repaired[..|repaired| - 1];
    }
    var openBraces := Count(repaired, '{') - Count(repaired, '}');
    var openBrackets := Count(repaired, '[') - Count(repaired, ']');
    if !EndsInQuote(repaired) && Count(repaired, '"') % 2 == 1 {
      repaired := repaired + "\"";
    }
    repaired := repaired + Repeat(']', openBrackets) + Repeat('}', openBraces);
    r := parse(repaired);
  }

  /** What trimming takes off: the blanks at the end, and then one comma, if there is one. */
  lemma TrimExactly(text: string, isSpace: char -> bool)
    requires !isSpace(',')
    ensures var t := Trim(text, isSpace);
            var comma := |t| < |text| && text[|t|] == ',';
            && t <= text
            && (forall i | |t| + (if comma then 1 else 0) <= i < |text| :: isSpace(text[i]))
            && (!comma && t != "" ==> !isSpace(t[|t| - 1]) && t[|t| - 1] != ',')
  {
    StripTakesBlanks(text, isSpace);
  }

  // ---------------------------------------------------------------- counts against the reader

  lemma CountOne(text: string, x: char, c: char)
    ensures Count(text + [x], c) == Count(text, c) + (if x == c then 1 else 0)
  {
    assert (text + [x])[..|text|] == text;
  }

  /** The three counts agree with a reader's state. */
  predicate Agree(s: Scan, braces: int, brackets: int, quotes: nat) {
    && s.mode != Escaped
    && braces == Count(s.stack, '{')
    && brackets == Count(s.stack, '[')
    && (quotes % 2 == 1 <==> s.mode == Inside)
  }

  function Delta(c: char, up: char, down: char): int {
    if c == up then 1 else if c == down then -1 else 0
  }

  lemma StepAgrees(s: Scan, c: char, braces: int, brackets: int, quotes: nat)
    requires Agree(s, braces, brackets, quotes)
    requires Step(s, c).plain && !Step(s, c).broken
    ensures Agree(Step(s, c), braces + Delta(c, '{', '}'), brackets + Delta(c, '[', ']'),
                  quotes + (if c == '"' then 1 else 0))
  {
    if s.mode == Outside && (c == '{' || c == '[') {
      CountOne(s.stack, c, '{');
      CountOne(s.stack, c, '[');
    }
  }

  predicate OnlyOpeners(stack: string) {
    forall i | 0 <= i < |stack| :: stack[i] == '{' || stack[i] == '['
  }

  lemma {:induction false} StackHoldsOpeners(text: string)
    ensures OnlyOpeners(Read(text).stack)
  {
    if text != "" {
      StackHoldsOpeners(text[..|text| - 1]);
    }
  }

  /** While strings are plain and nothing is closed out of turn, the counts are those of the open
      delimiters, and the quotes tell whether a string is open. */
  lemma {:induction false} CountsAgree(text: string)
    requires Read(text).plain && !Read(text).broken
    ensures Agree(Read(text), Count(text, '{') - Count(text, '}'), Count(text, '[') - Count(text, ']'), Count(text, '"'))
  {
    if text != "" {
      var before, c := text[..|text| - 1], text[|text| - 1];
      CountsAgree(before);
      StepAgrees(Read(before), c, Count(before, '{') - Count(before, '}'),
                 Count(before, '[') - Count(before, ']'), Count(before, '"'));
    }
  }

  lemma {:induction false} TwoKinds(stack: string)
    requires OnlyOpeners(stack)
    ensures Count(stack, '{') + Count(stack, '[') == |stack|
  {
    if stack != "" {
      TwoKinds(stack[..|stack| - 1]);
    }
  }

  lemma {:induction false} CountNone(stack: string, c: char)
    ensures Count(stack, c) <= |stack|
    ensures Count(stack, c) == |stack| <==> forall i | 0 <= i < |stack| :: stack[i] == c
    ensures Count(stack, c) == 0 <==> c !in stack
  {
    if stack != "" {
      CountNone(stack[..|stack| - 1], c);
    }
  }

  lemma {:induction false} CountJoin(a: string, b: string, c: char)
    ensures Count(a + b, c) == Count(a, c) + Count(b, c)
  {
    if b == "" {
      assert a + b == a;
    } else {
      CountJoin(a, b[..|b| - 1], c);
      assert (a + b)[..|a + b| - 1] == a + b[..|b| - 1];
    }
  }

  /** What trimming takes off does not matter to the reader. */
  lemma {:induction false} StripKeepsReading(text: string, isSpace: char -> bool)
    requires forall c | IsStructural(c) :: !isSpace(c)
    requires Read(text).plain
    ensures Read(StripRight(text, isSpace)) == Read(text)
  {
    if text != "" && isSpace(text[|text| - 1]) {
      PlainBefore(text);
      StripKeepsReading(text[..|text| - 1], isSpace);
      assert !IsStructural(text[|text| - 1]);
    }
  }

  /** A plain reading never was in the middle of an escape, and was plain before. */
  lemma {:induction false} PlainBefore(text: string)
    requires text != "" && Read(text).plain
    ensures Read(text[..|text| - 1]).plain && Read(text[..|text| - 1]).mode != Escaped
  {
    var before := text[..|text| - 1];
    if before != "" && Read(before).plain {
      PlainBefore(before);
    }
  }

  lemma TrimKeepsReading(text: string, isSpace: char -> bool)
    requires forall c | IsStructural(c) :: !isSpace(c)
    requires Read(text).plain
    ensures Read(Trim(text, isSpace)) == Read(text)
  {
    var stripped := StripRight(text, isSpace);
    StripKeepsReading(text, isSpace);
    if stripped != "" && stripped[|stripped| - 1] == ',' {
      PlainBefore(stripped);
    }
  }

  // ---------------------------------------------------------------- appending closers

  predicate TopAre(stack: string, n: nat, open: char) {
    n <= |stack| && forall i | |stack| - n <= i < |stack| :: stack[i] == open
  }

  /** What n closers leave of a stack, if it has that many matching openers on top. */
  predicate Popped(before: Scan, after: Scan, n: nat, open: char) {
    && after.mode == Outside
    && (!after.broken <==> TopAre(before.stack, n, open))
    && (!after.broken ==> after.stack == before.stack[..|before.stack| - n])
  }

  lemma PopOne(before: Scan, s: Scan, n: nat, open: char, close: char)
    requires (open, close) == ('{', '}') || (open, close) == ('[', ']')
    requires Popped(before, s, n, open)
    ensures Popped(before, Step(s, close), n + 1, open)
  {
    if !s.broken && n < |before.stack| {
      assert s.stack[|s.stack| - 1] == before.stack[|before.stack| - n - 1];
    }
  }

  /** n closers pop n matching openers, or break the text when the top n do not match. */
  lemma {:induction false} CloseMany(s: Scan, open: char, close: char, n: nat)
    requires (open, close) == ('{', '}') || (open, close) == ('[', ']')
    requires s.mode == Outside && !s.broken
    ensures Popped(s, Fold(s, Repeat(close, n)), n, open)
  {
    if n > 0 {
      CloseMany(s, open, close, n - 1);
      FoldOne(s, Repeat(close, n - 1), close);
      PopOne(s, Fold(s, Repeat(close, n - 1)), n - 1, open, close);
    }
  }

  /** Inside a string, closers do not end it. */
  lemma {:induction false} CloseInside(s: Scan, close: char, n: nat)
    requires (close == '}' || close == ']') && s.mode != Outside
    ensures Fold(s, Repeat(close, n)).mode != Outside
  {
    hide Fold, Repeat;
    RepeatNext(close, n);
    if n > 0 {
      CloseInside(s, close, n - 1);
      FoldOne(s, Repeat(close, n - 1), close);
    } else {
      FoldNone(s);
    }
  }

  lemma RepeatNext(c: char, n: nat)
    ensures Repeat(c, n) == if n == 0 then "" else Repeat(c, n - 1) + [c]
  {
  }

  lemma FoldNone(s: Scan)
    ensures Fold(s, "") == s
  {
  }

  lemma {:induction false} BrokenStays(s: Scan, more: string)
    requires s.broken
    ensures Fold(s, more).broken
  {
    if more != "" {
      BrokenStays(s, more[..|more| - 1]);
    }
  }

  /** All open braces come before, that is outside, all open brackets. */
  predicate BracesThenBrackets(stack: string) {
    forall i, j | 0 <= i < j < |stack| :: !(stack[i] == '[' && stack[j] == '{')
  }

  lemma AllOnTop(stack: string, k: nat, b: nat)
    requires OnlyOpeners(stack)
    requires k == Count(stack, '[') && b == |stack| - k && TopAre(stack, k, '[')
    ensures TopAre(stack[..b], b, '{')
  {
    var low, high := stack[..b], stack[b..];
    assert low + high == stack;
    CountJoin(low, high, '[');
    CountNone(high, '[');
    CountNone(low, '[');
    forall i | 0 <= i < b
      ensures low[i] == '{'
    {
      assert low[i] in low;
    }
  }

  lemma NotOnTop(stack: string, k: nat, b: nat)
    requires OnlyOpeners(stack)
    requires k == Count(stack, '[') && b == |stack| - k && !TopAre(stack, k, '[')
    ensures !BracesThenBrackets(stack)
  {
    hide Count;
    var low, high := stack[..b], stack[b..];
    assert low + high == stack;
    CountJoin(low, high, '[');
    CountNone(low, '[');
    CountNone(high, '[');
    var j :| b <= j < |stack| && stack[j] != '[';
    assert high[j - b] == stack[j];
    var i :| 0 <= i < b && low[i] == '[';
    assert stack[i] == '[' && stack[j] == '{';
  }

  /** A stack of k brackets and b braces has its brackets on top exactly when they are innermost. */
  lemma BracketsOnTop(stack: string, k: nat, b: nat)
    requires OnlyOpeners(stack)
    requires k == Count(stack, '[') && b == Count(stack, '{')
    ensures k + b == |stack|
    ensures TopAre(stack, k, '[') <==> BracesThenBrackets(stack)
    ensures TopAre(stack, k, '[') ==> TopAre(stack[..b], b, '{')
  {
    TwoKinds(stack);
    if TopAre(stack, k, '[') {
      AllOnTop(stack, k, b);
      assert forall i | 0 <= i < b :: stack[..b][i] == stack[i];
    } else {
      NotOnTop(stack, k, b);
    }
  }

  // ---------------------------------------------------------------- when the repair works

  /** The three kinds of characters the repair appends, one after the other. */
  function Finish(s: Scan, quote: bool, k: int, b: int): Scan {
    var q := if quote then Step(s, '"') else s;
    Fold(Fold(q, Repeat(']', k)), Repeat('}', b))
  }

  lemma AppendReads(text: string, quote: bool, k: int, b: int)
    ensures Read(Append(text, quote, k, b)) == Finish(Read(text), quote, k, b)
  {
    FoldOne(START, text, '"');
    FoldThree(START, if quote then text + "\"" else text, Repeat(']', k), Repeat('}', b));
  }

  lemma FoldThree(s: Scan, a: string, b: string, c: string)
    ensures Fold(s, a + b + c) == Fold(Fold(Fold(s, a), b), c)
  {
    FoldJoin(s, a + b, c);
    FoldJoin(s, a, b);
  }

  lemma FinishBroken(s: Scan, quote: bool, k: int, b: int)
    requires s.broken
    ensures Finish(s, quote, k, b).broken
  {
    var q := if quote then Step(s, '"') else s;
    BrokenStays(q, Repeat(']', k));
    BrokenStays(Fold(q, Repeat(']', k)), Repeat('}', b));
  }

  lemma FinishInside(s: Scan, k: nat, b: nat)
    requires s.mode != Outside
    ensures Finish(s, false, k, b).mode != Outside
  {
    CloseInside(s, ']', k);
    CloseInside(Fold(s, Repeat(']', k)), '}', b);
  }

  lemma {:induction false} RepeatIs(c: char, n: nat)
    ensures |Repeat(c, n)| == n && forall i | 0 <= i < n :: Repeat(c, n)[i] == c
  {
    if n > 0 {
      RepeatIs(c, n - 1);
    }
  }

  /** Braces and then brackets, and nothing else. */
  lemma TopAndRest(stack: string, k: nat, b: nat)
    ensures stack == Repeat('{', b) + Repeat('[', k) <==>
              |stack| == k + b && TopAre(stack, k, '[') && TopAre(stack[..b], b, '{')
  {
    hide Repeat;
    RepeatIs('{', b);
    RepeatIs('[', k);
    if |stack| == k + b && TopAre(stack, k, '[') && TopAre(stack[..b], b, '{') {
      assert forall i | 0 <= i < b :: stack[i] == stack[..b][i];
    }
  }

  /** What k brackets and then b braces close, from outside of all strings. */
  lemma FinishOutside(s: Scan, k: nat, b: nat)
    requires s.mode == Outside && !s.broken
    ensures IsClosed(Finish(s, false, k, b)) <==> s.stack == Repeat('{', b) + Repeat('[', k)
  {
    hide Repeat, Fold;
    TopAndRest(s.stack, k, b);
    CloseMany(s, '[', ']', k);
    var r := Fold(s, Repeat(']', k));
    if r.broken {
      BrokenStays(r, Repeat('}', b));
    } else {
      CloseMany(r, '{', '}', b);
      assert |s.stack| == k + b ==> r.stack == s.stack[..b];
    }
  }

  /** For any text, also with delimiters inside its strings: the repaired text is closed exactly when nothing
      was closed out of turn, the quotes tell whether a string is open, and what is open is as many braces as
      the text has more opening than closing ones, and then as many brackets. */
  lemma RepairClosesExactly(text: string, isSpace: char -> bool)
    ensures var t := Trim(text, isSpace);
            var s, quote := Read(t), !(t != "" && t[|t| - 1] == '"') && Count(t, '"') % 2 == 1;
            Closed(Repaired(text, isSpace)) <==>
              && !s.broken && s.mode == (if quote then Inside else Outside)
              && s.stack == Repeat('{', Count(t, '{') - Count(t, '}')) + Repeat('[', Count(t, '[') - Count(t, ']'))
  {
    hide Read, Count, Fold, Trim;
    var t := Trim(text, isSpace);
    var s, quote := Read(t), !EndsInQuote(t) && Count(t, '"') % 2 == 1;
    var k, b := Count(t, '[') - Count(t, ']'), Count(t, '{') - Count(t, '}');
    AppendReads(t, quote, k, b);
    var q := if quote then Step(s, '"') else s;
    var k', b' := if k < 0 then 0 else k, if b < 0 then 0 else b;
    assert Repeat(']', k) == Repeat(']', k') && Repeat('[', k) == Repeat('[', k');
    assert Repeat('}', b) == Repeat('}', b') && Repeat('{', b) == Repeat('{', b');
    assert Finish(s, quote, k, b) == Finish(q, false, k', b');
    if s.broken {
      FinishBroken(q, false, k', b');
    } else if q.mode == Outside {
      FinishOutside(q, k', b');
    } else {
      FinishInside(q, k', b');
    }
  }

  /** For a text whose strings are plain, the repaired text is closed exactly when nothing was closed
      out of turn, the text (less trailing blanks and comma) does not stop right after the quote
      that opens a string, and its open braces are all outside its open brackets. */
  lemma RepairExact(text: string, isSpace: char -> bool)
    requires forall c | IsStructural(c) :: !isSpace(c)
    requires Read(text).plain
    ensures var s, t := Read(text), Trim(text, isSpace);
            Closed(Repaired(text, isSpace))
            <==> !s.broken && !(s.mode == Inside && t != "" && t[|t| - 1] == '"') && BracesThenBrackets(s.stack)
  {
    hide Count, Fold, Trim, BracesThenBrackets;
    var t := Trim(text, isSpace);
    TrimKeepsReading(text, isSpace);
    RepairClosesExactly(text, isSpace);
    var s := Read(t);
    if !s.broken {
      CountsAgree(t);
      StackHoldsOpeners(t);
      var k, b := Count(s.stack, '['), Count(s.stack, '{');
      BracketsOnTop(s.stack, k, b);
      TopAndRest(s.stack, k, b);
    }
  }

  /** For example: a brace inside a bracket is closed in the wrong order. */
  lemma BraceInBracketStaysOpen(isSpace: char -> bool)
    requires forall c | IsStructural(c) :: !isSpace(c)
    ensures !Closed(Repaired("[{", isSpace))
  {
    assert "[{"[..1] == "[" && "["[..0] == "";
    assert Read("[") == Scan(Outside, "[", false, true);
    assert Read("[{") == Scan(Outside, "[{", false, true);
    assert "[{"[0] == '[' && "[{"[1] == '{';
    RepairExact("[{", isSpace);
  }

  /** For example: a bracket inside a string is counted, and closed once too often. */
  lemma BracketInStringBreaks(isSpace: char -> bool)
    requires !isSpace('"')
    ensures !Closed(Repaired("[\"[\"", isSpace))
  {
    hide Repeat, Fold, Count, Trim, IsClosed;
    var text := "[\"[\"";
    EachCounts("", '[');
    EachCounts("[", '"');
    EachCounts("[\"", '[');
    EachCounts("[\"[", '"');
    assert text == "[\"[" + ['"'] && "[\"[" == "[\"" + ['['] && "[\"" == "[" + ['"'] && "[" == "" + ['['];
    NothingCounts();
    assert Read(text).stack == "[" && Count(text, '[') == 2 && Count(text, ']') == 0;
    TrimNothing(text, isSpace);
    RepairClosesExactly(text, isSpace);
    RepeatIs('[', 2);
  }

  lemma EachCounts(text: string, c: char)
    ensures Read(text + [c]) == Step(Read(text), c)
    ensures Count(text + [c], '[') == Count(text, '[') + if c == '[' then 1 else 0
    ensures Count(text + [c], ']') == Count(text, ']') + if c == ']' then 1 else 0
  {
    FoldOne(START, text, c);
    CountOne(text, c, '[');
    CountOne(text, c, ']');
  }

  lemma NothingCounts()
    ensures Read("") == START && Count("", '[') == Count("", ']') == 0
  {
  }

  lemma TrimNothing(text: string, isSpace: char -> bool)
    requires text != "" && text[|text| - 1] != ',' && !isSpace(text[|text| - 1])
    ensures Trim(text, isSpace) == text
  {
  }

  /** A text that is already closed gains nothing, and no repair removes more than blanks and a comma. */
  lemma RepairKeepsText(text: string, isSpace: char -> bool)
    requires forall c | IsStructural(c) :: !isSpace(c)
    requires Read(text).plain
    ensures Trim(text, isSpace) <= Repaired(text, isSpace)
    ensures Closed(text) ==> Repaired(text, isSpace) == Trim(text, isSpace)
  {
    TrimKeepsReading(text, isSpace);
    var t := Trim(text, isSpace);
    if Closed(text) {
      CountsAgree(t);
      assert Count("", '{') == 0 && Count("", '[') == 0;
    }
  }
}
