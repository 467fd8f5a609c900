/** Substring search, left-to-right replacement, and when a fixed string spliced into a text
    can complete an occurrence of another string. */
module Strings {

  /** A string to search for: never empty. */
  type Pattern = s: string | s != "" witness "x"

  predicate At(text: string, i: int, s: string) {
    0 <= i <= |text| - |s| && text[i..i + |s|] == s
  }

  predicate Contains(text: string, s: string) {
    exists i | 0 <= i <= |text| - |s| :: At(text, i, s)
  }

  lemma AtChars(text: string, i: nat, s: string)
    requires i + |s| <= |text|
    ensures At(text, i, s) <==> forall d | 0 <= d < |s| :: text[i + d] == s[d]
  {
    var part := text[i..i + |s|];
    assert forall d | 0 <= d < |s| :: part[d] == text[i + d];
  }

  ghost predicate IsPart(part: string, text: string) {
    exists before: string, after: string :: before + part + after == text
  }

  lemma PartIsContained(part: string, text: string)
    ensures IsPart(part, text) <==> Contains(text, part)
  {
    if i :| 0 <= i <= |text| - |part| && At(text, i, part) {
      assert text[..i] + part + text[i + |part|..] == text;
    }
    if before: string, after: string :| before + part + after == text {
      assert text[|before|..|before| + |part|] == part;
      assert At(text, |before|, part);
    }
  }

  /** The first position of `s` at or after `from`, or -1. */
  function FindFrom(text: string, s: string, from: nat): (r: int)
    requires from <= |text|
    ensures r == -1 || (from <= r && At(text, r, s))
    ensures forall j | from <= j && (r == -1 || j < r) :: !At(text, j, s)
    decreases |text| - from
  {
    if At(text, from, s) then from
    else if from == |text| then -1
    else FindFrom(text, s, from + 1)
  }

  function Find(text: string, s: string): (r: int)
    ensures r == -1 <==> !Contains(text, s)
    ensures r != -1 ==> At(text, r, s) && r >= 0
    ensures forall j | 0 <= j < r :: !At(text, j, s)
  {
    FindFrom(text, s, 0)
  }

  lemma FoundAt(text: string, s: string, i: nat)
    requires At(text, i, s) && forall j | 0 <= j < i :: !At(text, j, s)
    ensures Find(text, s) == i
  {
  }

  /** Python's `text.replace(s, mark)`: non-overlapping matches, taken from the left. */
  function Replace(text: string, s: Pattern, mark: string): string
    decreases |text|
  {
    var i := Find(text, s);
    if i == -1 then text
    else text[..i] + mark + Replace(text[i + |s|..], s, mark)
  }

  /** One of the two strings is a prefix of the other. */
  predicate Meets(a: string, b: string) {
    a <= b || b <= a
  }

  /** No occurrence of `s` can touch a copy of `mark`: wherever the two overlap, they disagree. */
  predicate Apart(s: string, mark: string) {
    && (forall o | 0 <= o < |mark| :: !Meets(s, mark[o..]))
    && (forall k | 0 < k < |s| :: !Meets(s[k..], mark))
  }

  lemma ContainsPart(text: string, lo: nat, hi: nat, s: string)
    requires lo <= hi <= |text| && Contains(text[lo..hi], s)
    ensures Contains(text, s)
  {
    var i :| 0 <= i <= hi - lo - |s| && At(text[lo..hi], i, s);
    AtChars(text[lo..hi], i, s);
    AtChars(text, lo + i, s);
    assert At(text, lo + i, s);
  }

  /** An occurrence in `a + mark + b` lies inside `a`, lies inside `b`, or agrees with the mark
      where it overlaps it. */
  lemma SpliceCases(a: string, mark: string, b: string, s: string)
    requires Contains(a + mark + b, s)
    ensures Contains(a, s) || Contains(b, s) || !Apart(s, mark)
  {
    var t := a + mark + b;
    var i :| 0 <= i <= |t| - |s| && At(t, i, s);
    assert forall d | 0 <= d < |s| :: s[d] == t[i..i + |s|][d] == t[i + d];
    if i + |s| <= |a| {
      assert a[i..i + |s|] == s;
      assert At(a, i, s);
    } else if |a| + |mark| <= i {
      var j := i - |a| - |mark|;
      assert b[j..j + |s|] == s;
      assert At(b, j, s);
    } else if |a| <= i {
      var o := i - |a|;
      assert Meets(s, mark[o..]);
    } else {
      var k := |a| - i;
      assert Meets(s[k..], mark);
    }
  }

  /** What surrounds the mark when it completes an occurrence of a string not apart from it. */
  lemma SpliceWitness(s: Pattern, mark: Pattern) returns (a: string, b: string)
    requires !Apart(s, mark)
    ensures |a| < |s| && |b| < |s| && Contains(a + mark + b, s)
  {
    if o :| 0 <= o < |mark| && Meets(s, mark[o..]) {
      a := "";
      b := if |s| <= |mark| - o then "" else s[|mark| - o..];
      var t := a + mark + b;
      assert forall d | 0 <= d < |s| :: t[o + d] == s[d];
      AtChars(t, o, s);
    } else {
      var k :| 0 < k < |s| && Meets(s[k..], mark);
      a := s[..k];
      b := if |s| - k <= |mark| then "" else s[k + |mark|..];
      var t := a + mark + b;
      assert forall d | 0 <= d < |s| :: t[0 + d] == s[d];
      AtChars(t, 0, s);
    }
  }

  /** No text around the mark completes an occurrence of `s`. */
  ghost predicate NeverCompletes(s: string, mark: string) {
    forall a: string, b: string | Contains(a + mark + b, s) :: Contains(a, s) || Contains(b, s)
  }

  /** Putting `mark` between two texts never completes `s`, for all texts, exactly when `s` is
      apart from the mark. */
  lemma SpliceExact(s: Pattern, mark: Pattern)
    ensures NeverCompletes(s, mark) <==> Apart(s, mark)
  {
    if Apart(s, mark) {
      forall a: string, b: string | Contains(a + mark + b, s)
        ensures Contains(a, s) || Contains(b, s)
      {
        SpliceCases(a, mark, b, s);
      }
    } else {
      var a, b := SpliceWitness(s, mark);
      assert !Contains(a, s) && !Contains(b, s);
    }
  }

  /** Replacing any string by a mark apart from `s` does not create an `s`. */
  lemma {:induction false} ReplaceCreatesNothing(text: string, r: Pattern, mark: string, s: Pattern)
    requires Apart(s, mark)
    requires Contains(Replace(text, r, mark), s)
    ensures Contains(text, s)
    decreases |text|
  {
    var i := Find(text, r);
    if i != -1 {
      var rest := text[i + |r|..];
      SpliceCases(text[..i], mark, Replace(rest, r, mark), s);
      if Contains(text[..i], s) {
        ContainsPart(text, 0, i, s);
      } else {
        ReplaceCreatesNothing(rest, r, mark, s);
        assert rest == text[i + |r|..|text|];
        ContainsPart(text, i + |r|, |text|, s);
      }
    }
  }

  lemma AbsentBeforeFirst(text: string, s: Pattern)
    requires Contains(text, s)
    ensures !Contains(text[..Find(text, s)], s)
  {
    var i := Find(text, s);
    forall j | 0 <= j <= i - |s|
      ensures !At(text[..i], j, s)
    {
      AtChars(text[..i], j, s);
      AtChars(text, j, s);
    }
  }

  /** Replacing `s` by a mark apart from it leaves no `s`. */
  lemma {:induction false} ReplaceRemoves(text: string, s: Pattern, mark: string)
    requires Apart(s, mark)
    ensures !Contains(Replace(text, s, mark), s)
    decreases |text|
  {
    var i := Find(text, s);
    if i != -1 {
      var rest := text[i + |s|..];
      ReplaceRemoves(rest, s, mark);
      AbsentBeforeFirst(text, s);
      if Contains(Replace(text, s, mark), s) {
        SpliceCases(text[..i], mark, Replace(rest, s, mark), s);
      }
    }
  }

  // ---------------------------------------------------------------- replacing in parts of a text

  /** An occurrence of `s` lies across the cut. */
  predicate Crosses(text: string, cut: nat, s: string) {
    exists p | 0 <= p < cut :: cut < p + |s| && At(text, p, s)
  }

  /** An occurrence of a string apart from the mark does not touch the mark. */
  lemma ApartKeepsOff(a: string, mark: string, b: string, s: Pattern, p: nat)
    requires At(a + mark + b, p, s)
    ensures Apart(s, mark) ==> mark == "" || p + |s| <= |a| || |a| + |mark| <= p
  {
    var t := a + mark + b;
    AtChars(t, p, s);
    if p + |s| > |a| && p < |a| + |mark| {
      if |a| <= p {
        var o := p - |a|;
        assert forall d | 0 <= d < |mark| - o :: mark[o..][d] == t[p + d];
        assert Meets(s, mark[o..]);
      } else {
        var k := |a| - p;
        assert forall d | 0 <= d < |mark| :: mark[d] == t[|a| + d];
        assert forall d | 0 <= d < |s| - k :: s[k..][d] == t[|a| + d];
        assert Meets(s[k..], mark);
      }
    }
  }

  lemma SuffixCrosses(x: string, y: string, n: nat, s: Pattern)
    requires n <= |x|
    ensures Crosses(x[n..] + y, |x| - n, s) ==> Crosses(x + y, |x|, s)
  {
    if p :| 0 <= p < |x| - n && |x| - n < p + |s| && At(x[n..] + y, p, s) {
      assert (x + y)[n + p..n + p + |s|] == (x[n..] + y)[p..p + |s|];
      assert At(x + y, n + p, s);
    }
  }

  lemma FoundInFront(x: string, y: string, s: Pattern)
    requires Contains(x, s)
    ensures Find(x + y, s) == Find(x, s)
  {
    var i := Find(x, s);
    forall p | 0 <= p <= i
      ensures At(x + y, p, s) <==> At(x, p, s)
    {
      assert (x + y)[p..p + |s|] == x[p..p + |s|];
    }
  }

  lemma FoundBehind(x: string, y: string, s: Pattern)
    requires !Contains(x, s) && !Crosses(x + y, |x|, s)
    ensures Find(x + y, s) == if Contains(y, s) then |x| + Find(y, s) else -1
  {
    forall p | 0 <= p < |x|
      ensures !At(x + y, p, s)
    {
      if p + |s| <= |x| {
        assert (x + y)[p..p + |s|] == x[p..p + |s|];
        assert !At(x, p, s);
      }
    }
    forall p | |x| <= p <= |x + y| - |s|
      ensures At(x + y, p, s) <==> At(y, p - |x|, s)
    {
      assert (x + y)[p..p + |s|] == y[p - |x|..p - |x| + |s|];
    }
    if Contains(y, s) {
      assert At(x + y, |x| + Find(y, s), s);
    }
  }

  lemma ReplaceAt(text: string, s: Pattern, mark: string)
    ensures var i := Find(text, s);
            Replace(text, s, mark) == if i == -1 then text else text[..i] + mark + Replace(text[i + |s|..], s, mark)
  {
  }

  lemma Reassociate(a: string, mark: string, b: string, c: string)
    ensures a + mark + (b + c) == (a + mark + b) + c && c + (a + mark + b) == (c + a) + mark + b
  {
  }

  /** Where no occurrence lies across the cut, replacing in the whole is replacing in the parts. */
  lemma {:induction false} ReplaceJoin(x: string, y: string, s: Pattern, mark: string)
    requires !Crosses(x + y, |x|, s)
    ensures Replace(x + y, s, mark) == Replace(x, s, mark) + Replace(y, s, mark)
    decreases |x|
  {
    hide Crosses, Contains, Replace, Find;
    ReplaceAt(x + y, s, mark);
    ReplaceAt(x, s, mark);
    ReplaceAt(y, s, mark);
    var i := Find(x, s);
    if i != -1 {
      FoundInFront(x, y, s);
      var rest := x[i + |s|..];
      SuffixCrosses(x, y, i + |s|, s);
      ReplaceJoin(rest, y, s, mark);
      assert (x + y)[i + |s|..] == rest + y && (x + y)[..i] == x[..i];
      Reassociate(x[..i], mark, Replace(rest, s, mark), Replace(y, s, mark));
    } else {
      FoundBehind(x, y, s);
      var j := Find(y, s);
      if j != -1 {
        assert (x + y)[..|x| + j] == x + y[..j] && (x + y)[|x| + j + |s|..] == y[j + |s|..];
        Reassociate(y[..j], mark, Replace(y[j + |s|..], s, mark), x);
      }
    }
  }

  /** Replacing on one side of a cut brings nothing across it that is apart from the mark. */
  lemma {:induction false} CrossesAfterLeft(x: string, y: string, r: Pattern, mark: Pattern, s: Pattern)
    requires Apart(s, mark)
    ensures Crosses(Replace(x, r, mark) + y, |Replace(x, r, mark)|, s) ==> Crosses(x + y, |x|, s)
    decreases |x|
  {
    hide Apart;
    var i := Find(x, r);
    if i != -1 {
      var rest := x[i + |r|..];
      var rest' := Replace(rest, r, mark);
      var x' := x[..i] + mark + rest';
      CrossesAfterLeft(rest, y, r, mark, s);
      SuffixCrosses(x, y, i + |r|, s);
      if p :| 0 <= p < |x'| && |x'| < p + |s| && At(x' + y, p, s) {
        BehindMark(x[..i], mark, rest', y, s, p);
      }
    }
  }

  /** An occurrence across the end of what follows the mark lies behind the mark. */
  lemma BehindMark(a: string, mark: Pattern, b: string, c: string, s: Pattern, p: nat)
    requires Apart(s, mark) && p < |a + mark + b| < p + |s| && At(a + mark + b + c, p, s)
    ensures Crosses(b + c, |b|, s)
  {
    hide Apart;
    var text := a + mark + b + c;
    assert text == a + mark + (b + c);
    ApartKeepsOff(a, mark, b + c, s, p);
    var q := p - |a| - |mark|;
    assert (b + c)[q..q + |s|] == text[p..p + |s|];
    assert At(b + c, q, s);
  }

  lemma CrossesAfterRight(x: string, y: string, r: Pattern, mark: Pattern, s: Pattern)
    requires Apart(s, mark)
    ensures Crosses(x + Replace(y, r, mark), |x|, s) ==> Crosses(x + y, |x|, s)
  {
    var i := Find(y, r);
    if i != -1 {
      var rest' := Replace(y[i + |r|..], r, mark);
      var y' := y[..i] + mark + rest';
      if p :| 0 <= p < |x| && |x| < p + |s| && At(x + y', p, s) {
        assert x + y' == (x + y[..i]) + mark + rest';
        ApartKeepsOff(x + y[..i], mark, rest', s, p);
        assert (x + y)[p..p + |s|] == (x + y[..i])[p..p + |s|] == (x + y')[p..p + |s|];
        assert At(x + y, p, s);
      }
    }
  }

  // ---------------------------------------------------------------- stripping and cutting

  /** Python's rstrip, for a given notion of blank. */
  function StripRight(text: string, isSpace: char -> bool): string {
    if text != "" && isSpace(text[|text| - 1]) then StripRight(text[..|text| - 1], isSpace) else text
  }

  function StripLeft(text: string, isSpace: char -> bool): string {
    if text != "" && isSpace(text[0]) then StripLeft(text[1..], isSpace) else text
  }

  function Strip(text: string, isSpace: char -> bool): string {
    StripLeft(StripRight(text, isSpace), isSpace)
  }

  /** The text without the blanks around it. */
  ghost predicate IsStripped(inner: string, text: string, isSpace: char -> bool) {
    && (inner != "" ==> !isSpace(inner[0]) && !isSpace(inner[|inner| - 1]))
    && exists before: string, after: string ::
         && text == before + inner + after
         && (forall i | 0 <= i < |before| :: isSpace(before[i])) && (forall i | 0 <= i < |after| :: isSpace(after[i]))
  }

  lemma {:induction false} StripTakesBlanks(text: string, isSpace: char -> bool)
    ensures var t := StripRight(text, isSpace);
            && t <= text && (forall i | |t| <= i < |text| :: isSpace(text[i]))
            && (t != "" ==> !isSpace(t[|t| - 1]))
  {
    if text != "" && isSpace(text[|text| - 1]) {
      StripTakesBlanks(text[..|text| - 1], isSpace);
    }
  }

  lemma {:induction false} StripLeftTakesBlanks(text: string, isSpace: char -> bool)
    ensures var t := StripLeft(text, isSpace);
            && |t| <= |text| && t == text[|text| - |t|..] && (forall i | 0 <= i < |text| - |t| :: isSpace(text[i]))
            && (t != "" ==> !isSpace(t[0]))
  {
    if text != "" && isSpace(text[0]) {
      var rest, t := text[1..], StripLeft(text[1..], isSpace);
      StripLeftTakesBlanks(rest, isSpace);
      assert rest[|rest| - |t|..] == text[|text| - |t|..];
      assert forall i | 0 < i < |text| - |t| :: text[i] == rest[i - 1];
    } else {
      assert text[0..] == text;
    }
  }

  lemma StripIsStripped(text: string, isSpace: char -> bool)
    ensures IsStripped(Strip(text, isSpace), text, isSpace)
  {
    hide StripLeft, StripRight, IsStripped;
    StripTakesBlanks(text, isSpace);
    var right := StripRight(text, isSpace);
    StripLeftTakesBlanks(right, isSpace);
    var inner := StripLeft(right, isSpace);
    var before, after := right[..|right| - |inner|], text[|right|..];
    assert text == right + after && right == before + inner;
    assert inner != "" ==> inner[|inner| - 1] == right[|right| - 1];
    assert forall i | 0 <= i < |after| :: after[i] == text[|right| + i];
    StrippedOf(before, inner, after, isSpace);
  }

  lemma StrippedOf(before: string, inner: string, after: string, isSpace: char -> bool)
    requires inner != "" ==> !isSpace(inner[0]) && !isSpace(inner[|inner| - 1])
    requires (forall i | 0 <= i < |before| :: isSpace(before[i])) && (forall i | 0 <= i < |after| :: isSpace(after[i]))
    ensures IsStripped(inner, before + inner + after, isSpace)
  {
  }

  /** Python's `text.split(c)[0]`. */
  function Before(text: string, c: char): string {
    if text == "" || text[0] == c then "" else [text[0]] + Before(text[1..], c)
  }

  /** Python's `text.split(c, 1)[1]`, for a text that holds c. */
  function After(text: string, c: char): (r: string)
    ensures c in text ==> |r| < |text|
  {
    if text == "" then "" else if text[0] == c then text[1..] else After(text[1..], c)
  }

  /** Python's `text.split(c)[-1]`. */
  function AfterLast(text: string, c: char): string
    decreases |text|
  {
    if c in text then AfterLast(After(text, c), c) else text
  }

  /** The first c of the text is at k. */
  predicate FirstAt(text: string, k: int, c: char) {
    0 <= k < |text| && text[k] == c && c !in text[..k]
  }

  lemma {:induction false} AfterIsRest(text: string, c: char) returns (k: nat)
    requires c in text
    ensures FirstAt(text, k, c) && After(text, c) == text[k + 1..] && Before(text, c) == text[..k]
    ensures forall i :: FirstAt(text, i, c) ==> i == k
  {
    if text[0] == c {
      k := 0;
    } else {
      var rest := text[1..];
      var l := AfterIsRest(rest, c);
      k := l + 1;
      assert text[..k] == [text[0]] + rest[..l] && text[k + 1..] == rest[l + 1..];
    }
    forall i | FirstAt(text, i, c)
      ensures i == k
    {
      if i < k {
        InFront(text, i, k);
      } else if k < i {
        InFront(text, k, i);
      }
    }
  }

  lemma InFront(text: string, i: int, k: int)
    requires 0 <= i < k <= |text|
    ensures text[i] in text[..k]
  {
    assert text[..k][i] == text[i];
  }

  /** What comes before the first c, or all of a text without c. */
  predicate IsFirstPart(part: string, text: string, c: char) {
    c !in part && (text == part || part + [c] <= text)
  }

  lemma {:induction false} FirstPart(text: string, c: char, part: string)
    ensures IsFirstPart(part, text, c) <==> part == Before(text, c)
  {
    if text != "" && text[0] != c {
      FirstPart(text[1..], c, Before(text[1..], c));
      if part != "" {
        FirstPart(text[1..], c, part[1..]);
        assert part == [part[0]] + part[1..];
        assert part + [c] == [part[0]] + (part[1..] + [c]);
      }
    }
  }

  /** What comes after the last c, or all of a text without c. */
  predicate IsLastPart(part: string, text: string, c: char) {
    c !in part && (text == part || (|part| < |text| && text[|text| - |part| - 1..] == [c] + part))
  }

  lemma {:induction false} LastPart(text: string, c: char, part: string)
    ensures IsLastPart(part, text, c) <==> part == AfterLast(text, c)
    decreases |text|
  {
    if c in text {
      var rest := After(text, c);
      var k := AfterIsRest(text, c);
      LastPart(rest, c, part);
      LastPartOfRest(text, c, part, k);
    } else if |part| < |text| {
      PartAfter(text, c, part);
    }
  }

  lemma PartAfter(text: string, c: char, part: string)
    requires |part| < |text|
    ensures text[|text| - |part| - 1..] == [c] + part ==> c in text
  {
    assert text[|text| - |part| - 1] == text[|text| - |part| - 1..][0];
  }

  lemma LastPartOfRest(text: string, c: char, part: string, k: nat)
    requires FirstAt(text, k, c)
    ensures IsLastPart(part, text, c) <==> IsLastPart(part, text[k + 1..], c)
  {
    var rest, at := text[k + 1..], |text| - |part| - 1;
    assert text == text[..k] + [c] + rest;
    if IsLastPart(part, text, c) {
      assert text[at] == text[at..][0] == c;
      assert at < k + 1 || text[at..] == rest[at - k - 1..];
      if at == k {
        assert text[at..] == [c] + rest;
        assert rest == ([c] + rest)[1..] == ([c] + part)[1..] == part;
      }
    }
    if IsLastPart(part, rest, c) {
      if rest == part {
        assert text[k..] == [c] + rest;
      } else {
        assert text[at..] == rest[at - k - 1..];
      }
    }
  }

  lemma BeforeFirst(x: char, text: string, c: char)
    ensures Before([x] + text, c) == if x == c then "" else [x] + Before(text, c)
  {
    assert ([x] + text)[1..] == text;
  }

  lemma {:induction false} BeforeJoin(a: string, b: string, c: char)
    ensures Before(a + b, c) == if c in a then Before(a, c) else a + Before(b, c)
  {
    hide Before;
    if a == "" {
      assert a + b == b && a + Before(b, c) == Before(b, c);
    } else {
      var x, rest := a[0], a[1..];
      assert a == [x] + rest && a + b == [x] + (rest + b);
      BeforeJoin(rest, b, c);
      BeforeFirst(x, rest + b, c);
      BeforeFirst(x, rest, c);
      assert [x] + (rest + Before(b, c)) == ([x] + rest) + Before(b, c);
    }
  }
}
