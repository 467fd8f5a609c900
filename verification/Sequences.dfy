/** Optional values, and lists of lists. */
module Sequences {

  datatype Option<+T> = None | Some(value: T) {
    function GetOr(default: T): T {
      if None? then default else value
    }
  }

  /** The items at the listed positions. */
  function Pick<T>(s: seq<T>, picks: seq<nat>): (r: seq<T>)
    requires forall i | 0 <= i < |picks| :: picks[i] < |s|
    ensures |r| == |picks| && forall i | 0 <= i < |picks| :: r[i] == s[picks[i]]
  {
    seq(|picks|, i requires 0 <= i < |picks| => s[picks[i]])
  }

  function Flatten<T>(parts: seq<seq<T>>): seq<T> {
    if parts == [] then [] else parts[0] + Flatten(parts[1..])
  }

  lemma Associative<T>(a: seq<T>, b: seq<T>, c: seq<T>)
    ensures a + (b + c) == (a + b) + c
  {
  }

  lemma {:induction false} FlattenJoin<T>(a: seq<seq<T>>, b: seq<seq<T>>)
    ensures Flatten(a + b) == Flatten(a) + Flatten(b)
  {
    if a == [] {
      assert a + b == b;
    } else {
      FlattenJoin(a[1..], b);
      assert (a + b)[1..] == a[1..] + b;
      Associative(a[0], Flatten(a[1..]), Flatten(b));
    }
  }
}
