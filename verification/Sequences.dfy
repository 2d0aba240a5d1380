/** Lists as the mail code uses them: an element leaves by position or by value. */
module Sequences {

  /** Drops the element at one position, as a fired callback leaves the main loop. */
  function Without<T>(s: seq<T>, i: nat): (r: seq<T>)
    requires i < |s|
    ensures |r| == |s| - 1
  {
    s[..i] + s[i+1..]
  }

  lemma WithoutTakesOne<T>(s: seq<T>, i: nat)
    requires i < |s|
    ensures multiset(s) == multiset(Without(s, i)) + multiset{s[i]}
  {
    assert s == s[..i] + [s[i]] + s[i+1..];
  }

  /** The effect of tny_list_remove: only the first occurrence goes. */
  function RemoveFirst<T(==)>(s: seq<T>, x: T): seq<T> {
    if s == [] then []
    else if s[0] == x then s[1..]
    else [s[0]] + RemoveFirst(s[1..], x)
  }

  /** The element is found at the i-th place, or not at all. */
  lemma {:induction false} RemoveFirstAt<T>(s: seq<T>, x: T, i: nat)
    requires i <= |s| && (i < |s| ==> s[i] == x) && forall k :: 0 <= k < i ==> s[k] != x
    ensures RemoveFirst(s, x) == if i < |s| then s[..i] + s[i + 1..] else s
  {
    if i > 0 {
      RemoveFirstAt(s[1..], x, i - 1);
      assert s == [s[0]] + s[1..];
      if i < |s| {
        assert s[1..][..i - 1] == s[1..i] && s[1..][i..] == s[i + 1..];
      }
    }
  }

  lemma FirstApart<T>(x: T, s: seq<T>)
    ensures multiset([x] + s) == multiset{x} + multiset(s)
  {
  }

  lemma {:induction false} RemoveFirstTakesOne<T>(s: seq<T>, x: T)
    ensures multiset(RemoveFirst(s, x)) == multiset(s) - multiset{x}
  {
    if s != [] {
      assert s == [s[0]] + s[1..];
      FirstApart(s[0], s[1..]);
      if s[0] != x {
        RemoveFirstTakesOne(s[1..], x);
        FirstApart(s[0], RemoveFirst(s[1..], x));
      }
    }
  }

  /** tny_list_remove for each element of xs in turn. */
  function RemoveEach<T(==)>(s: seq<T>, xs: seq<T>): seq<T>
    decreases |xs|
  {
    if xs == [] then s else RemoveFirst(RemoveEach(s, xs[..|xs| - 1]), xs[|xs| - 1])
  }

  lemma RemoveEachStep<T>(s: seq<T>, xs: seq<T>, k: nat)
    requires k < |xs|
    ensures RemoveEach(s, xs[..k + 1]) == RemoveFirst(RemoveEach(s, xs[..k]), xs[k])
  {
    assert xs[..k + 1][..k] == xs[..k];
  }

  lemma RemoveEachOne<T>(s: seq<T>, x: T)
    ensures RemoveEach(s, [x]) == RemoveFirst(s, x)
  {
    assert [x][..0] == [];
  }

  lemma OneMore<T>(s: seq<T>, k: nat)
    requires k < |s|
    ensures s[..k + 1] == s[..k] + [s[k]]
    ensures multiset(s[..k + 1]) == multiset(s[..k]) + multiset{s[k]}
  {
    assert s[..k + 1] == s[..k] + [s[k]];
  }

  lemma LessOneMore<T>(m: multiset<T>, xs: seq<T>, k: nat)
    requires k < |xs|
    ensures m - multiset(xs[..k + 1]) == m - multiset(xs[..k]) - multiset{xs[k]}
  {
    assert xs[..k + 1] == xs[..k] + [xs[k]];
  }

  lemma {:induction false} RemoveEachLeaves<T>(s: seq<T>, xs: seq<T>)
    ensures multiset(RemoveEach(s, xs)) == multiset(s) - multiset(xs)
    decreases |xs|
  {
    if xs != [] {
      var k := |xs| - 1;
      assert xs[..k + 1] == xs;
      RemoveEachLeaves(s, xs[..k]);
      RemoveFirstTakesOne(RemoveEach(s, xs[..k]), xs[k]);
      LessOneMore(multiset(s), xs, k);
    }
  }

  lemma RemoveEachCovers<T>(s: seq<T>, xs: seq<T>)
    requires multiset(s) <= multiset(xs)
    ensures RemoveEach(s, xs) == []
  {
    RemoveEachLeaves(s, xs);
    assert |multiset(RemoveEach(s, xs))| == 0;
  }

  lemma SplitAt<T>(s: seq<T>, i: nat) returns (a: seq<T>, b: seq<T>)
    requires i < |s|
    ensures s == a + [s[i]] + b && Without(s, i) == a + b
  {
    a, b := s[..i], s[i+1..];
  }

  /** The parts of a sequence drawn from a collection. */
  lemma PartsOf<T>(first: seq<T>, second: seq<T>, third: seq<T>, all: seq<T>, pool: multiset<T>)
    requires first + second + third == all && multiset(all) <= pool
    ensures first <= all && multiset(third) <= pool && multiset(all) - pool == multiset{}
  {
    assert all == first + (second + third);
    assert multiset(all) == multiset(first + second) + multiset(third);
  }
}
