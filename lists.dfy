/**
 * The array operations the pages use on lists held in state: `filter`,
 * `map`, `reduce` to a sum, `filter((_, i) => i !== index)` and
 * `[...new Set(xs)]`.
 */
module Lists {

  /** `s.filter(p)` */
  function Filter<T(==,!new)>(p: T -> bool, s: seq<T>): (r: seq<T>)
    ensures |r| <= |s|
    ensures forall i :: 0 <= i < |r| ==> p(r[i])
    ensures forall x :: x in r <==> x in s && p(x)
    decreases |s|
  {
    if s == [] then []
    else (if p(s[0]) then [s[0]] else []) + Filter(p, s[1..])
  }

  /** Filtering distributes over concatenation, so a filter keeps the order of
      the elements it keeps. */
  lemma {:induction false} FilterConcat<T(!new)>(p: T -> bool, a: seq<T>, b: seq<T>)
    ensures Filter(p, a + b) == Filter(p, a) + Filter(p, b)
    decreases |a|
  {
    if a != [] {
      assert (a + b)[1..] == a[1..] + b;
      FilterConcat(p, a[1..], b);
    } else {
      assert a + b == b;
    }
  }

  /** Two complementary filters split a list: their lengths add up and
      together they hold every element exactly as often as the list. */
  lemma {:induction false} FilterPartition<T(!new)>(p: T -> bool, q: T -> bool, s: seq<T>)
    requires forall x :: q(x) == !p(x)
    ensures |Filter(p, s)| + |Filter(q, s)| == |s|
    ensures multiset(Filter(p, s)) + multiset(Filter(q, s)) == multiset(s)
    decreases |s|
  {
    if s != [] {
      FilterPartition(p, q, s[1..]);
      assert s == [s[0]] + s[1..];
    }
  }

  /** A filter keeps everything it is given when every element passes. */
  lemma {:induction false} FilterAll<T(!new)>(p: T -> bool, s: seq<T>)
    requires forall i :: 0 <= i < |s| ==> p(s[i])
    ensures Filter(p, s) == s
    decreases |s|
  {
    if s != [] {
      FilterAll(p, s[1..]);
    }
  }

  /** A filter comes back empty exactly when no element passes. */
  lemma {:induction false} FilterEmpty<T(!new)>(p: T -> bool, s: seq<T>)
    ensures Filter(p, s) == [] <==> forall i :: 0 <= i < |s| ==> !p(s[i])
    decreases |s|
  {
    if s != [] {
      FilterEmpty(p, s[1..]);
      assert forall i :: 1 <= i < |s| ==> s[i] == s[1..][i - 1];
    }
  }

  /** A filter keeps two or more elements exactly when two different
      positions of the list pass. */
  lemma {:induction false} FilterAtLeastTwo<T(!new)>(p: T -> bool, s: seq<T>)
    ensures |Filter(p, s)| >= 2 <==> exists i, j :: 0 <= i < j < |s| && p(s[i]) && p(s[j])
    decreases |s|
  {
    if s != [] {
      var rest := s[1..];
      FilterAtLeastTwo(p, rest);
      FilterEmpty(p, rest);
      if exists i, j :: 0 <= i < j < |s| && p(s[i]) && p(s[j]) {
        var i, j :| 0 <= i < j < |s| && p(s[i]) && p(s[j]);
        assert s[j] == rest[j - 1];
        if i > 0 {
          assert s[i] == rest[i - 1];
        }
      }
      if |Filter(p, s)| >= 2 {
        if p(s[0]) {
          var j :| 0 <= j < |rest| && p(rest[j]);
          assert s[j + 1] == rest[j];
        } else {
          var i, j :| 0 <= i < j < |rest| && p(rest[i]) && p(rest[j]);
          assert s[i + 1] == rest[i] && s[j + 1] == rest[j];
        }
      }
    }
  }

  /** Filters by two predicates that never hold together keep, between
      them, as many elements as the filter by their disjunction. */
  lemma {:induction false} FilterDisjoint<T(!new)>(p: T -> bool, q: T -> bool, r: T -> bool, s: seq<T>)
    requires forall x :: r(x) == (p(x) || q(x))
    requires forall x :: !(p(x) && q(x))
    ensures |Filter(r, s)| == |Filter(p, s)| + |Filter(q, s)|
    decreases |s|
  {
    if s != [] {
      FilterDisjoint(p, q, r, s[1..]);
    }
  }

  /** `s.some(p)` */
  function Any<T>(p: T -> bool, s: seq<T>): (r: bool)
    ensures r <==> exists i :: 0 <= i < |s| && p(s[i])
    decreases |s|
  {
    if s == [] then false
    else
      assert forall i :: 1 <= i < |s| ==> s[i] == s[1..][i - 1];
      p(s[0]) || Any(p, s[1..])
  }

  /** `s.map(f)` */
  function Map<A, B>(f: A -> B, s: seq<A>): (r: seq<B>)
    ensures |r| == |s|
    ensures forall i :: 0 <= i < |s| ==> r[i] == f(s[i])
  {
    seq(|s|, i requires 0 <= i < |s| => f(s[i]))
  }

  lemma MapConcat<A, B>(f: A -> B, a: seq<A>, b: seq<A>)
    ensures Map(f, a + b) == Map(f, a) + Map(f, b)
  {
  }

  /** Mapping a function that fixes every element changes nothing. */
  lemma MapFixed<A>(f: A -> A, s: seq<A>)
    requires forall i :: 0 <= i < |s| ==> f(s[i]) == s[i]
    ensures Map(f, s) == s
  {
  }

  /** `s.filter((_, i) => i !== index)`: an index outside the list removes
      nothing. */
  function RemoveAt<T>(s: seq<T>, index: int): (r: seq<T>)
    ensures 0 <= index < |s| ==> |r| == |s| - 1
    ensures 0 <= index < |s| ==> forall i :: 0 <= i < |r| ==> r[i] == (if i < index then s[i] else s[i + 1])
    ensures !(0 <= index < |s|) ==> r == s
  {
    if 0 <= index < |s| then s[..index] + s[index + 1..] else s
  }

  // ------------------------------------------------------------- sets

  predicate NoDuplicates<T(==,!new)>(s: seq<T>) {
    forall i, j :: 0 <= i < j < |s| ==> s[i] != s[j]
  }

  /** `[...new Set(s)]`: the first occurrence of each element, in order. */
  function Dedup<T(==,!new)>(s: seq<T>): (r: seq<T>)
    ensures NoDuplicates(r)
    ensures forall x :: x in r <==> x in s
    ensures |r| <= |s|
    decreases |s|
  {
    if s == [] then []
    else
      var d := Dedup(s[..|s| - 1]);
      assert forall x :: x in s <==> x in s[..|s| - 1] || x == s[|s| - 1] by {
        assert s == s[..|s| - 1] + [s[|s| - 1]];
      }
      if s[|s| - 1] in d then d else d + [s[|s| - 1]]
  }

  /** A list without duplicates is its own set. */
  lemma {:induction false} DedupNoDuplicates<T(!new)>(s: seq<T>)
    requires NoDuplicates(s)
    ensures Dedup(s) == s
    decreases |s|
  {
    if s != [] {
      DedupNoDuplicates(s[..|s| - 1]);
      assert s[|s| - 1] !in s[..|s| - 1];
      assert s[..|s| - 1] + [s[|s| - 1]] == s;
    }
  }

  /** Adding an element to a set: `Dedup(s + [x])` is the old set followed by
      `x` when `x` is new, and the old set otherwise. */
  lemma {:induction false} DedupAppend<T(!new)>(s: seq<T>, x: T)
    ensures Dedup(s + [x]) == if x in s then Dedup(s) else Dedup(s) + [x]
  {
    assert (s + [x])[..|s + [x]| - 1] == s;
  }

  /** Adding an element twice has the effect of adding it once. */
  lemma {:induction false} DedupAddIdempotent<T(!new)>(s: seq<T>, x: T)
    ensures Dedup(Dedup(s + [x]) + [x]) == Dedup(s + [x])
  {
    var d := Dedup(s + [x]);
    assert x in d;
    DedupAppend(d, x);
    DedupNoDuplicates(d);
  }

  /** An element of a list without duplicates occurs exactly once. */
  lemma OccursOnce<T(!new)>(s: seq<T>, x: T)
    requires NoDuplicates(s) && x in s
    ensures multiset(s)[x] == 1
  {
    var i :| 0 <= i < |s| && s[i] == x;
    assert s == s[..i] + [x] + s[i + 1..];
    assert x !in s[..i];
    assert x !in s[i + 1..];
    assert multiset(s) == multiset(s[..i]) + multiset{x} + multiset(s[i + 1..]);
  }
}
