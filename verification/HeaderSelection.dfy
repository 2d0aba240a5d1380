/** How the update of an account picks the messages to download: size filter, sort by date,
    reversal by prepending, and a cut at the retrieval limit. */
module HeaderSelection {
  import opened Messages

  /** compare_headers_by_date: it never answers 0, so two headers of one date compare as "greater"
      in both directions. */
  function CompareByDate(a: Header, b: Header): int {
    if a.dateSent < b.dateSent then -1 else 1
  }

  function UnderSize(hs: seq<Header>, maxSize: int): (r: seq<Header>)
    ensures forall h :: h in r <==> h in hs && h.size < maxSize
  {
    if hs == [] then []
    else if hs[|hs| - 1].size < maxSize then UnderSize(hs[..|hs| - 1], maxSize) + [hs[|hs| - 1]]
    else UnderSize(hs[..|hs| - 1], maxSize)
  }

  /** The merge step of GLib's array sort: the left head goes first unless it compares greater. */
  function Merge(a: seq<Header>, b: seq<Header>): seq<Header>
    decreases |a| + |b|
  {
    if a == [] then b
    else if b == [] then a
    else if CompareByDate(a[0], b[0]) <= 0 then [a[0]] + Merge(a[1..], b)
    else [b[0]] + Merge(a, b[1..])
  }

  /** g_ptr_array_sort, a top-down merge sort. */
  function Sort(hs: seq<Header>): seq<Header>
    decreases |hs|
  {
    if |hs| <= 1 then hs else Merge(Sort(hs[..|hs| / 2]), Sort(hs[|hs| / 2..]))
  }

  /** The list built by prepending each element in turn. */
  function Prepended(hs: seq<Header>): seq<Header> {
    if hs == [] then [] else [hs[|hs| - 1]] + Prepended(hs[..|hs| - 1])
  }

  ghost predicate OldestFirst(hs: seq<Header>) {
    forall i, j :: 0 <= i < j < |hs| ==> hs[i].dateSent <= hs[j].dateSent
  }

  ghost predicate NewestFirst(hs: seq<Header>) {
    forall i, j :: 0 <= i < j < |hs| ==> hs[i].dateSent >= hs[j].dateSent
  }

  lemma OldestFirstCons(head: Header, tail: seq<Header>)
    requires OldestFirst(tail)
    requires forall h :: h in tail ==> head.dateSent <= h.dateSent
    ensures OldestFirst([head] + tail)
  {
  }

  lemma OldestFirstHead(hs: seq<Header>)
    requires OldestFirst(hs) && hs != []
    ensures OldestFirst(hs[1..])
    ensures forall h :: h in hs ==> hs[0].dateSent <= h.dateSent
  {
  }

  lemma Uncons(hs: seq<Header>)
    requires hs != []
    ensures multiset(hs) == multiset{hs[0]} + multiset(hs[1..])
  {
    assert hs == [hs[0]] + hs[1..];
  }

  lemma {:induction false} MergeKeeps(a: seq<Header>, b: seq<Header>)
    ensures multiset(Merge(a, b)) == multiset(a) + multiset(b)
    decreases |a| + |b|
  {
    if a != [] && b != [] {
      var fromA := CompareByDate(a[0], b[0]) <= 0;
      var head, a', b' := if fromA then a[0] else b[0], if fromA then a[1..] else a, if fromA then b else b[1..];
      Uncons(if fromA then a else b);
      MergeKeeps(a', b');
      assert multiset([head] + Merge(a', b')) == multiset{head} + multiset(Merge(a', b'));
    }
  }

  lemma MergedFrom(a: seq<Header>, b: seq<Header>, h: Header)
    requires h in Merge(a, b)
    ensures h in a || h in b
  {
    MergeKeeps(a, b);
    assert h in multiset(Merge(a, b));
  }

  lemma {:induction false} MergeIsSorted(a: seq<Header>, b: seq<Header>)
    requires OldestFirst(a) && OldestFirst(b)
    ensures OldestFirst(Merge(a, b))
    decreases |a| + |b|
  {
    if a != [] && b != [] {
      OldestFirstHead(a);
      OldestFirstHead(b);
      var fromA := CompareByDate(a[0], b[0]) <= 0;
      var head, a', b' := if fromA then a[0] else b[0], if fromA then a[1..] else a, if fromA then b else b[1..];
      MergeIsSorted(a', b');
      forall h | h in Merge(a', b') ensures head.dateSent <= h.dateSent {
        MergedFrom(a', b', h);
        assert h in a || h in b;
      }
      OldestFirstCons(head, Merge(a', b'));
    }
  }

  lemma Halves(hs: seq<Header>) returns (l: seq<Header>, r: seq<Header>)
    requires |hs| > 1
    ensures hs == l + r && |l| < |hs| && |r| < |hs|
    ensures Sort(hs) == Merge(Sort(l), Sort(r))
  {
    l, r := hs[..|hs| / 2], hs[|hs| / 2..];
  }

  lemma {:induction false} SortIsSorted(hs: seq<Header>)
    ensures OldestFirst(Sort(hs)) && multiset(Sort(hs)) == multiset(hs)
    decreases |hs|
  {
    if |hs| > 1 {
      var l, r := Halves(hs);
      SortIsSorted(l);
      SortIsSorted(r);
      MergeIsSorted(Sort(l), Sort(r));
      MergeKeeps(Sort(l), Sort(r));
    }
  }

  lemma {:induction false} PrependedReverses(hs: seq<Header>)
    ensures |Prepended(hs)| == |hs|
    ensures forall k :: 0 <= k < |hs| ==> Prepended(hs)[k] == hs[|hs| - 1 - k]
    ensures multiset(Prepended(hs)) == multiset(hs)
  {
    if hs != [] {
      var front := hs[..|hs| - 1];
      PrependedReverses(front);
      assert hs == front + [hs[|hs| - 1]];
    }
  }

  /** The list handed to the download loop. */
  function Newest(hs: seq<Header>, maxSize: int): seq<Header> {
    Prepended(Sort(UnderSize(hs, maxSize)))
  }

  /** MODEST_CONF_MSG_SIZE_LIMIT is in kilobytes and 0 stands for no limit. */
  function MaxSize(limitKb: nat): int {
    if limitKb == 0 then G_MAXINT else limitKb * 1024
  }

  /** MIN (tny_list_get_length (new_headers), retrieve_limit) compares unsigned numbers, so a
      negative limit counts as a huge one; a limit of 0 was replaced by G_MAXINT. */
  function RetrieveCount(available: nat, limit: int): (n: nat)
    requires -0x8000_0000 <= limit <= G_MAXINT
    ensures n <= available
    ensures 0 < available ==> 0 < n
  {
    if limit < 0 then Min(available, limit + G_MAXUINT + 1)
    else if limit == 0 then Min(available, G_MAXINT)
    else Min(available, limit)
  }

  lemma NewestIsOrdered(hs: seq<Header>, maxSize: int)
    ensures NewestFirst(Newest(hs, maxSize))
    ensures multiset(Newest(hs, maxSize)) == multiset(UnderSize(hs, maxSize))
    ensures |Newest(hs, maxSize)| == |UnderSize(hs, maxSize)|
  {
    var under := UnderSize(hs, maxSize);
    SortIsSorted(under);
    PrependedReverses(Sort(under));
    assert |multiset(Sort(under))| == |multiset(under)|;
  }

  lemma CutIsNewest(all: seq<Header>, n: nat, h: Header, g: Header)
    requires NewestFirst(all) && n <= |all|
    requires h in all[..n] && g in multiset(all) - multiset(all[..n])
    ensures g.dateSent <= h.dateSent
  {
    assert all == all[..n] + all[n..];
    assert g in all[n..];
    var i :| 0 <= i < n && all[i] == h;
    var j :| 0 <= j < |all[n..]| && all[n..][j] == g;
    assert all[n + j] == g;
  }

  lemma FirstAreNewest(all: seq<Header>, candidates: seq<Header>, n: nat)
    requires NewestFirst(all) && multiset(all) == multiset(candidates) && n <= |all|
    ensures multiset(all[..n]) <= multiset(candidates)
    ensures forall h, g :: h in all[..n] && g in multiset(candidates) - multiset(all[..n]) ==> g.dateSent <= h.dateSent
  {
    assert all == all[..n] + all[n..];
    forall h: Header, g: Header | h in all[..n] && g in multiset(candidates) - multiset(all[..n])
      ensures g.dateSent <= h.dateSent
    {
      CutIsNewest(all, n, h, g);
    }
  }

  /** What is downloaded is a true top-k: as many as the limit allows, all of them under the size
      limit, and none of them older than a header that was passed over. */
  lemma RequestedAreTheNewest(hs: seq<Header>, maxSize: int, limit: int)
    requires -0x8000_0000 <= limit <= G_MAXINT
    ensures var candidates := UnderSize(hs, maxSize);
            var requested := Newest(hs, maxSize)[..RetrieveCount(|Newest(hs, maxSize)|, limit)];
            && (0 < limit ==> |requested| == Min(|candidates|, limit))
            && (limit < 0 ==> |requested| == Min(|candidates|, limit + G_MAXUINT + 1))
            && (limit == 0 ==> |requested| == Min(|candidates|, G_MAXINT))
            && multiset(requested) <= multiset(candidates)
            && (forall h :: h in requested ==> h in hs && h.size < maxSize)
            && (forall h, g :: h in requested && g in multiset(candidates) - multiset(requested)
                  ==> g.dateSent <= h.dateSent)
  {
    var candidates := UnderSize(hs, maxSize);
    var all := Newest(hs, maxSize);
    NewestIsOrdered(hs, maxSize);
    var n := RetrieveCount(|all|, limit);
    var requested := all[..n];
    FirstAreNewest(all, candidates, n);
    forall h | h in requested ensures h in hs && h.size < maxSize {
      assert h in multiset(all);
    }
  }

  // ----- headers of one date -----

  /** The headers of one date below a size, in their order. */
  function Dated(hs: seq<Header>, date: int, bytes: int): seq<Header> {
    if hs == [] then []
    else
      var h := hs[|hs| - 1];
      Dated(hs[..|hs| - 1], date, bytes) + if h.dateSent == date && h.size < bytes then [h] else []
  }

  lemma {:induction false} DatedConcat(a: seq<Header>, b: seq<Header>, date: int, bytes: int)
    ensures Dated(a + b, date, bytes) == Dated(a, date, bytes) + Dated(b, date, bytes)
  {
    if b == [] {
      assert a + b == a;
    } else {
      assert (a + b)[..|a + b| - 1] == a + b[..|b| - 1];
      DatedConcat(a, b[..|b| - 1], date, bytes);
    }
  }

  lemma DatedFirst(h: Header, hs: seq<Header>, date: int, bytes: int)
    ensures Dated([h] + hs, date, bytes)
         == (if h.dateSent == date && h.size < bytes then [h] else []) + Dated(hs, date, bytes)
  {
    assert [h][..0] == [];
    DatedConcat([h], hs, date, bytes);
  }

  lemma {:induction false} NoneDated(hs: seq<Header>, date: int, bytes: int)
    requires forall h :: h in hs ==> h.dateSent != date
    ensures Dated(hs, date, bytes) == []
  {
    if hs != [] {
      NoneDated(hs[..|hs| - 1], date, bytes);
    }
  }

  lemma DatedBehindFirst(hs: seq<Header>, date: int, bytes: int)
    requires hs != []
    ensures Dated(hs, date, bytes)
         == (if hs[0].dateSent == date && hs[0].size < bytes then [hs[0]] else []) + Dated(hs[1..], date, bytes)
  {
    assert hs == [hs[0]] + hs[1..];
    DatedFirst(hs[0], hs[1..], date, bytes);
  }

  lemma YoungerDated(h: Header, hs: seq<Header>, date: int, bytes: int)
    requires OldestFirst(hs) && hs != [] && h.dateSent < hs[0].dateSent
    ensures h.dateSent == date ==> Dated(hs, date, bytes) == []
  {
    if h.dateSent == date {
      OldestFirstHead(hs);
      NoneDated(hs, date, bytes);
    }
  }

  lemma MergeFirst(a: seq<Header>, b: seq<Header>)
    requires a != [] && b != []
    ensures Merge(a, b)
         == if a[0].dateSent < b[0].dateSent then [a[0]] + Merge(a[1..], b) else [b[0]] + Merge(a, b[1..])
  {
  }

  lemma {:induction false} MergeDated(a: seq<Header>, b: seq<Header>, date: int, bytes: int)
    requires OldestFirst(a) && OldestFirst(b)
    ensures Dated(Merge(a, b), date, bytes) == Dated(b, date, bytes) + Dated(a, date, bytes)
    decreases |a| + |b|
  {
    if a != [] && b != [] {
      MergeFirst(a, b);
      if a[0].dateSent < b[0].dateSent {
        OldestFirstHead(a);
        MergeDated(a[1..], b, date, bytes);
        DatedFirst(a[0], Merge(a[1..], b), date, bytes);
        DatedBehindFirst(a, date, bytes);
        YoungerDated(a[0], b, date, bytes);
      } else {
        OldestFirstHead(b);
        MergeDated(a, b[1..], date, bytes);
        DatedFirst(b[0], Merge(a, b[1..]), date, bytes);
        DatedBehindFirst(b, date, bytes);
      }
    }
  }

  lemma {:induction false} PrependedConcat(a: seq<Header>, b: seq<Header>)
    ensures Prepended(a + b) == Prepended(b) + Prepended(a)
  {
    if b == [] {
      assert a + b == a;
    } else {
      assert (a + b)[..|a + b| - 1] == a + b[..|b| - 1];
      PrependedConcat(a, b[..|b| - 1]);
    }
  }

  /** The comparator never answers 0, so the sort reverses headers of one date. */
  lemma {:induction false} SortDated(hs: seq<Header>, date: int, bytes: int)
    ensures Dated(Sort(hs), date, bytes) == Prepended(Dated(hs, date, bytes))
    decreases |hs|
  {
    if |hs| <= 1 {
      assert |Dated(hs, date, bytes)| <= 1;
    } else {
      var l, r := Halves(hs);
      SortIsSorted(l);
      SortIsSorted(r);
      SortDated(l, date, bytes);
      SortDated(r, date, bytes);
      MergeDated(Sort(l), Sort(r), date, bytes);
      DatedConcat(l, r, date, bytes);
      PrependedConcat(Dated(l, date, bytes), Dated(r, date, bytes));
    }
  }

  lemma {:induction false} PrependedDated(hs: seq<Header>, date: int, bytes: int)
    ensures Dated(Prepended(hs), date, bytes) == Prepended(Dated(hs, date, bytes))
  {
    if hs != [] {
      var front, last := hs[..|hs| - 1], hs[|hs| - 1];
      PrependedDated(front, date, bytes);
      DatedFirst(last, Prepended(front), date, bytes);
      PrependedConcat(Dated(front, date, bytes), if last.dateSent == date && last.size < bytes then [last] else []);
    }
  }

  lemma PrependedTwice(hs: seq<Header>)
    ensures Prepended(Prepended(hs)) == hs
  {
    PrependedReverses(hs);
    PrependedReverses(Prepended(hs));
  }

  lemma {:induction false} UnderSizeDated(hs: seq<Header>, date: int, bytes: int)
    ensures Dated(UnderSize(hs, bytes), date, bytes) == Dated(hs, date, bytes)
  {
    if hs != [] {
      var front, last := hs[..|hs| - 1], hs[|hs| - 1];
      UnderSizeDated(front, date, bytes);
      if last.size < bytes {
        assert (UnderSize(front, bytes) + [last])[..|UnderSize(front, bytes)|] == UnderSize(front, bytes);
      }
    }
  }

  /** Prepending reverses them once more: headers of one date are downloaded in the order they came in. */
  lemma OneDateInOrder(hs: seq<Header>, date: int, bytes: int)
    ensures Dated(Newest(hs, bytes), date, bytes) == Dated(hs, date, bytes)
  {
    var under := UnderSize(hs, bytes);
    UnderSizeDated(hs, date, bytes);
    SortDated(under, date, bytes);
    PrependedDated(Sort(under), date, bytes);
    PrependedTwice(Dated(hs, date, bytes));
  }

  /** compute_message_list_size over the first numElements headers, or all of them for 0. */
  function Size(hs: seq<Header>): nat {
    if hs == [] then 0 else Size(hs[..|hs| - 1]) + hs[|hs| - 1].size
  }

  function ListSize(hs: seq<Header>, numElements: nat): nat {
    Size(if numElements == 0 || numElements > |hs| then hs else hs[..numElements])
  }

  /** The sum of the sizes. */
  lemma SizeOfMore(h: Header, hs: seq<Header>)
    ensures Size([]) == 0 && Size([h] + hs) == h.size + Size(hs)
  {
    SizeConcat([h], hs);
    assert [h][..0] == [];
  }

  lemma {:induction false} SizeConcat(a: seq<Header>, b: seq<Header>)
    ensures Size(a + b) == Size(a) + Size(b)
  {
    if b == [] {
      assert a + b == a;
    } else {
      assert (a + b)[..|a + b| - 1] == a + b[..|b| - 1];
      SizeConcat(a, b[..|b| - 1]);
    }
  }
}
