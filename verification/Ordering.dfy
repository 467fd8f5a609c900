/** List comprehensions, Python's stable sort with `reverse=True`, and its slices. */
module Ordering {
  import opened Sequences

  /** `[x for x in s if p(x)]` */
  function Select<T>(s: seq<T>, p: T -> bool): seq<T> {
    if s == [] then [] else (if p(s[0]) then [s[0]] else []) + Select(s[1..], p)
  }

  /** Python's `s[:k]`, where a negative k counts from the end. */
  function Take<T>(s: seq<T>, k: int): (r: seq<T>)
    ensures r <= s
    ensures k >= 0 ==> |r| == if k < |s| then k else |s|
  {
    if k >= |s| then s else if k >= 0 then s[..k] else if |s| + k >= 0 then s[..|s| + k] else []
  }

  predicate SortedDown<T>(s: seq<T>, score: T -> int) {
    forall i, j | 0 <= i < j < |s| :: score(s[i]) >= score(s[j])
  }

  /** Items with the same score stay in the order in which they were. */
  function Insert<T>(x: T, s: seq<T>, score: T -> int): seq<T> {
    if s == [] || score(x) >= score(s[0]) then [x] + s else [s[0]] + Insert(x, s[1..], score)
  }

  function SortDown<T>(s: seq<T>, score: T -> int): seq<T> {
    if s == [] then [] else Insert(s[0], SortDown(s[1..], score), score)
  }

  // ---------------------------------------------------------------- selecting

  lemma {:induction false} SelectJoin<T>(a: seq<T>, b: seq<T>, p: T -> bool)
    ensures Select(a + b, p) == Select(a, p) + Select(b, p)
  {
    if a == [] {
      assert a + b == b;
    } else {
      SelectJoin(a[1..], b, p);
      assert (a + b)[1..] == a[1..] + b;
      Associative(if p(a[0]) then [a[0]] else [], Select(a[1..], p), Select(b, p));
    }
  }

  lemma SelectFirst<T>(x: T, s: seq<T>, p: T -> bool)
    ensures Select([x] + s, p) == if p(x) then [x] + Select(s, p) else Select(s, p)
  {
    assert ([x] + s)[1..] == s && [] + Select(s, p) == Select(s, p);
  }

  lemma {:induction false} InSelect<T>(s: seq<T>, p: T -> bool, x: T)
    ensures x in Select(s, p) <==> x in s && p(x)
  {
    if s != [] {
      InSelect(s[1..], p, x);
      assert s == [s[0]] + s[1..];
    }
  }

  lemma {:induction false} SelectTwice<T>(s: seq<T>, p: T -> bool, q: T -> bool, both: T -> bool)
    requires forall x | x in s :: both(x) <==> p(x) && q(x)
    ensures Select(Select(s, p), q) == Select(s, both)
  {
    if s != [] {
      SelectTwice(s[1..], p, q, both);
      assert s[0] in s;
      var first, rest := if p(s[0]) then [s[0]] else [], Select(s[1..], p);
      SelectJoin(first, rest, q);
      assert [s[0]][1..] == [];
    }
  }

  lemma {:induction false} SelectAll<T>(s: seq<T>, p: T -> bool)
    requires forall x | x in s :: p(x)
    ensures Select(s, p) == s
  {
    if s != [] {
      SelectAll(s[1..], p);
      assert s[0] in s;
    }
  }

  lemma {:induction false} SelectNone<T>(s: seq<T>, p: T -> bool)
    requires forall x | x in s :: !p(x)
    ensures Select(s, p) == []
  {
    if s != [] {
      SelectNone(s[1..], p);
      assert s[0] in s;
    }
  }

  // ---------------------------------------------------------------- the sort is the stable one

  lemma {:induction false} InsertPermutes<T>(x: T, s: seq<T>, score: T -> int)
    ensures multiset(Insert(x, s, score)) == multiset(s) + multiset{x}
  {
    if s != [] && score(x) < score(s[0]) {
      InsertPermutes(x, s[1..], score);
      assert s == [s[0]] + s[1..];
    }
  }

  lemma {:induction false} SortPermutes<T>(s: seq<T>, score: T -> int)
    ensures multiset(SortDown(s, score)) == multiset(s)
  {
    if s != [] {
      SortPermutes(s[1..], score);
      InsertPermutes(s[0], SortDown(s[1..], score), score);
      assert s == [s[0]] + s[1..];
    }
  }

  lemma {:induction false} InsertSorts<T>(x: T, s: seq<T>, score: T -> int)
    requires SortedDown(s, score)
    ensures SortedDown(Insert(x, s, score), score)
  {
    if s != [] && score(x) < score(s[0]) {
      var rest := Insert(x, s[1..], score);
      InsertSorts(x, s[1..], score);
      InsertPermutes(x, s[1..], score);
      forall j | 0 <= j < |rest|
        ensures score(s[0]) >= score(rest[j])
      {
        assert rest[j] in multiset(rest);
        if rest[j] != x {
          assert rest[j] in multiset(s[1..]);
          var i :| 0 <= i < |s[1..]| && s[1..][i] == rest[j];
          assert s[i + 1] == rest[j];
        }
      }
    }
  }

  lemma {:induction false} SortSorts<T>(s: seq<T>, score: T -> int)
    ensures SortedDown(SortDown(s, score), score)
  {
    if s != [] {
      SortSorts(s[1..], score);
      InsertSorts(s[0], SortDown(s[1..], score), score);
    }
  }

  lemma InsertFirst<T>(x: T, s: seq<T>, score: T -> int)
    requires forall y | y in s :: score(x) >= score(y)
    ensures Insert(x, s, score) == [x] + s
  {
    if s != [] {
      assert s[0] in s;
    }
  }

  lemma {:induction false} InsertSelect<T>(x: T, s: seq<T>, score: T -> int, p: T -> bool)
    requires SortedDown(s, score)
    ensures Select(Insert(x, s, score), p)
         == if p(x) then Insert(x, Select(s, p), score) else Select(s, p)
  {
    if s == [] || score(x) >= score(s[0]) {
      SelectJoin([x], s, p);
      assert [x][1..] == [];
      forall y | y in Select(s, p)
        ensures score(x) >= score(y)
      {
        InSelect(s, p, y);
        var i :| 0 <= i < |s| && s[i] == y;
      }
      InsertFirst(x, Select(s, p), score);
    } else {
      var rest := s[1..];
      assert s == [s[0]] + rest;
      InsertSelect(x, rest, score, p);
      SelectFirst(s[0], Insert(x, rest, score), p);
      SelectFirst(s[0], rest, p);
      assert ([s[0]] + Select(rest, p))[1..] == Select(rest, p);
    }
  }

  /** Sorting and selecting can change places. */
  lemma {:induction false} SortSelect<T>(s: seq<T>, score: T -> int, p: T -> bool)
    ensures Select(SortDown(s, score), p) == SortDown(Select(s, p), score)
  {
    if s != [] {
      SortSelect(s[1..], score, p);
      SortSorts(s[1..], score);
      InsertSelect(s[0], SortDown(s[1..], score), score, p);
      assert s == [s[0]] + s[1..];
      SelectFirst(s[0], s[1..], p);
      assert ([s[0]] + Select(s[1..], p))[1..] == Select(s[1..], p);
    }
  }

  function AtScore<T>(score: T -> int, k: int): T -> bool {
    x => score(x) == k
  }

  lemma {:induction false} SortEqual<T>(s: seq<T>, score: T -> int, k: int)
    requires forall x | x in s :: score(x) == k
    ensures SortDown(s, score) == s
  {
    if s != [] {
      assert s == [s[0]] + s[1..];
      assert s[0] in s && forall x | x in s[1..] :: x in s;
      SortEqual(s[1..], score, k);
    }
  }

  /** The order of items with the same score is kept. */
  lemma SortIsStable<T>(s: seq<T>, score: T -> int, k: int)
    ensures Select(SortDown(s, score), AtScore(score, k)) == Select(s, AtScore(score, k))
  {
    SortSelect(s, score, AtScore(score, k));
    forall x | x in Select(s, AtScore(score, k))
      ensures score(x) == k
    {
      InSelect(s, AtScore(score, k), x);
    }
    SortEqual(Select(s, AtScore(score, k)), score, k);
  }

  ghost predicate SameClasses<T(!new)>(a: seq<T>, b: seq<T>, score: T -> int) {
    forall k: int :: Select(a, AtScore(score, k)) == Select(b, AtScore(score, k))
  }

  lemma LeadsItsClass<T>(a: seq<T>, score: T -> int)
    requires a != []
    ensures Select(a, AtScore(score, score(a[0]))) == [a[0]] + Select(a[1..], AtScore(score, score(a[0])))
  {
  }

  lemma LowerIsElsewhere<T>(b: seq<T>, score: T -> int, k: int)
    requires SortedDown(b, score) && (b == [] || score(b[0]) < k)
    ensures Select(b, AtScore(score, k)) == []
  {
    forall x | x in b
      ensures !AtScore(score, k)(x)
    {
      var i :| 0 <= i < |b| && b[i] == x;
    }
    SelectNone(b, AtScore(score, k));
  }

  lemma SameLead<T(!new)>(a: seq<T>, b: seq<T>, score: T -> int)
    requires SortedDown(a, score) && SortedDown(b, score) && SameClasses(a, b, score) && a != []
    ensures b != [] && a[0] == b[0]
  {
    LeadsItsClass(a, score);
    assert Select(a, AtScore(score, score(a[0]))) == Select(b, AtScore(score, score(a[0])));
    if b == [] || score(b[0]) < score(a[0]) {
      LowerIsElsewhere(b, score, score(a[0]));
    } else {
      LeadsItsClass(b, score);
      assert Select(a, AtScore(score, score(b[0]))) == Select(b, AtScore(score, score(b[0])));
      if score(a[0]) < score(b[0]) {
        LowerIsElsewhere(a, score, score(b[0]));
      } else {
        var k := score(a[0]);
        assert Select(a, AtScore(score, k))[0] == a[0] && Select(b, AtScore(score, k))[0] == b[0];
      }
    }
  }

  /** There is only one way to sort a list stably. */
  lemma {:induction false} StableIsUnique<T(!new)>(a: seq<T>, b: seq<T>, score: T -> int)
    requires SortedDown(a, score) && SortedDown(b, score) && SameClasses(a, b, score)
    ensures a == b
    decreases |a| + |b|
  {
    if a == [] {
      if b != [] {
        SameLead(b, a, score);
      }
    } else {
      SameLead(a, b, score);
      forall k: int
        ensures Select(a[1..], AtScore(score, k)) == Select(b[1..], AtScore(score, k))
      {
        var p := AtScore(score, k);
        assert Select(a, p) == Select(b, p);
        assert a == [a[0]] + a[1..] && b == [b[0]] + b[1..];
        SelectFirst(a[0], a[1..], p);
        SelectFirst(b[0], b[1..], p);
        assert ([a[0]] + Select(a[1..], p))[1..] == Select(a[1..], p);
        assert ([b[0]] + Select(b[1..], p))[1..] == Select(b[1..], p);
      }
      StableIsUnique(a[1..], b[1..], score);
      assert a == [a[0]] + a[1..] && b == [b[0]] + b[1..];
    }
  }

  /** Two scores that compare all items alike sort alike. */
  lemma {:induction false} SortAlike<T>(s: seq<T>, score: T -> int, other: T -> int)
    requires forall x, y :: score(x) >= score(y) <==> other(x) >= other(y)
    ensures SortDown(s, score) == SortDown(s, other)
  {
    if s != [] {
      SortAlike(s[1..], score, other);
      InsertAlike(s[0], SortDown(s[1..], score), score, other);
    }
  }

  lemma {:induction false} InsertAlike<T>(x: T, s: seq<T>, score: T -> int, other: T -> int)
    requires forall x, y :: score(x) >= score(y) <==> other(x) >= other(y)
    ensures Insert(x, s, score) == Insert(x, s, other)
  {
    if s != [] {
      InsertAlike(x, s[1..], score, other);
    }
  }
}
