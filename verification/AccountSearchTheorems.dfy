/** The promises of a search, over all runs. */
module AccountSearchTheorems {
  import opened Sequences
  import opened FolderTrees
  import opened Messages
  import opened MessageSearch
  import opened AccountSearch

  /** The folders a listing leads to: a folder that is a store is listed in turn. */
  function Below(f: Folder): multiset<Folder>
    decreases f
  {
    multiset{f} + if f.isStore then BelowAll(f.children) else multiset{}
  }

  function BelowAll(fs: seq<Folder>): multiset<Folder>
    decreases fs
  {
    if fs == [] then multiset{} else BelowAll(fs[..|fs| - 1]) + Below(fs[|fs| - 1])
  }

  /** What several listings lead to. */
  function Awaited(ls: seq<seq<Folder>>): multiset<Folder> {
    if ls == [] then multiset{} else Awaited(ls[..|ls| - 1]) + BelowAll(ls[|ls| - 1])
  }

  lemma {:induction false} AwaitedConcat(a: seq<seq<Folder>>, b: seq<seq<Folder>>)
    ensures Awaited(a + b) == Awaited(a) + Awaited(b)
  {
    if b == [] {
      assert a + b == a;
    } else {
      assert (a + b)[..|a + b| - 1] == a + b[..|b| - 1];
      AwaitedConcat(a, b[..|b| - 1]);
    }
  }

  lemma AwaitedOne(fs: seq<Folder>)
    ensures Awaited([fs]) == BelowAll(fs)
  {
    assert [fs][..0] == [];
  }

  lemma AwaitedWithout(ls: seq<seq<Folder>>, i: nat)
    requires i < |ls|
    ensures Awaited(ls) == Awaited(Without(ls, i)) + BelowAll(ls[i])
  {
    var a, b := SplitAt(ls, i);
    AwaitedConcat(a + [ls[i]], b);
    AwaitedConcat(a, [ls[i]]);
    AwaitedConcat(a, b);
    AwaitedOne(ls[i]);
  }

  /** A listing's folders are worth themselves and the listings of those that are stores. */
  lemma {:induction false} StoresShare(fs: seq<Folder>)
    ensures multiset(fs) + Awaited(Stores(fs)) == BelowAll(fs)
  {
    if fs != [] {
      var front, f := fs[..|fs| - 1], fs[|fs| - 1];
      assert fs == front + [f];
      StoresShare(front);
      if f.isStore {
        AwaitedConcat(Stores(front), [f.children]);
        AwaitedOne(f.children);
      } else {
        assert Stores(fs) == Stores(front);
      }
    }
  }

  ghost predicate Conserved(s: State, roots: seq<seq<Folder>>) {
    multiset(s.collected) + Awaited(s.listings) + Awaited(s.failed) == Awaited(roots)
  }

  lemma Rearranged(collected: multiset<Folder>, listings: multiset<Folder>, failed: multiset<Folder>,
                   here: multiset<Folder>, below: multiset<Folder>)
    ensures collected + (listings + (here + below)) + failed == collected + here + (listings + below) + failed
    ensures collected + (listings + here) + failed == collected + listings + (failed + here)
  {
  }

  lemma CollectedConserves(s: State, roots: seq<seq<Folder>>, i: nat, nothing: bool)
    requires Conserved(s, roots) && i < |s.listings|
    ensures Conserved(Collected(s, i, nothing), roots)
  {
    var fs, rest := s.listings[i], Without(s.listings, i);
    AwaitedWithout(s.listings, i);
    if nothing {
      AwaitedConcat(s.failed, [fs]);
      AwaitedOne(fs);
      Rearranged(multiset(s.collected), Awaited(rest), Awaited(s.failed), BelowAll(fs), multiset{});
    } else {
      AwaitedConcat(rest, Stores(fs));
      StoresShare(fs);
      Rearranged(multiset(s.collected), Awaited(rest), Awaited(s.failed), multiset(fs), Awaited(Stores(fs)));
    }
  }

  lemma ListedFrame(e: Env, s: State, i: nat, nothing: bool)
    requires Listing(s) && i < |s.listings|
    ensures var s', t := FoldersListed(e, s, i, nothing), Collected(s, i, nothing);
            s'.collected == t.collected && s'.listings == t.listings && s'.failed == t.failed
  {
    if Collected(s, i, nothing).pendingCalls == 0 {
      SearchFirstKeeps(e, Collected(s, i, nothing));
    }
  }

  lemma ConservedFrame(s: State, t: State, roots: seq<seq<Folder>>)
    requires Conserved(s, roots) && t.collected == s.collected && t.listings == s.listings && t.failed == s.failed
    ensures Conserved(t, roots)
  {
  }

  lemma ListedConserves(e: Env, s: State, roots: seq<seq<Folder>>, i: nat, nothing: bool)
    requires Listing(s) && i < |s.listings| && Conserved(s, roots)
    ensures Conserved(FoldersListed(e, s, i, nothing), roots)
  {
    CollectedConserves(s, roots, i, nothing);
    ListedFrame(e, s, i, nothing);
    ConservedFrame(Collected(s, i, nothing), FoldersListed(e, s, i, nothing), roots);
  }

  lemma HeadersConserve(e: Env, s: State, roots: seq<seq<Folder>>, ok: bool)
    requires Searching(e, s) && Conserved(s, roots)
    ensures Conserved(HeadersCame(e, s, ok), roots)
  {
    HeadersCameKeeps(e, s, ok);
    ConservedFrame(s, HeadersCame(e, s, ok), roots);
  }

  lemma StepConserves(e: Env, s: State, roots: seq<seq<Folder>>, ev: Event, s': State)
    requires Inv(e, s) && Enabled(s, ev) && Conserved(s, roots) && s' == Step(e, s, ev)
    ensures Conserved(s', roots)
  {
    match ev
    case Listed(i, cancelled, err) => ListedConserves(e, s, roots, i, cancelled || err);
    case GotHeaders(cancelled, err) => HeadersConserve(e, s, roots, !cancelled && !err);
  }

  lemma StartConserves(roots: seq<seq<Folder>>)
    ensures Conserved(Started(roots), roots)
  {
  }

  lemma {:induction false} EveryStateConserves(e: Env, roots: seq<seq<Folder>>, states: seq<State>, events: seq<Event>,
                                               k: nat)
    requires IsRun(e, roots, states, events) && k < |states|
    ensures Conserved(states[k], roots)
  {
    if k == 0 {
      StartConserves(roots);
    } else {
      EveryState(e, roots, states, events, k - 1);
      EveryStateConserves(e, roots, states, events, k - 1);
      StepConserves(e, states[k - 1], roots, events[k - 1], states[k]);
    }
  }

  // ----- the theorems -----

  /** pending_calls counts the listings outstanding; after them at most one header call is. When no call is left,
      the search has called back exactly once, with all its hits, if it found a folder; if it found none it has
      not and never will. */
  lemma CallsBackOnce(e: Env, roots: seq<seq<Folder>>, states: seq<State>, events: seq<Event>, k: nat)
    requires IsRun(e, roots, states, events) && k < |states|
    ensures var s := states[k];
            && s.pendingCalls == |s.listings| && |s.headerCalls| <= 1 && (s.listings != [] ==> s.headerCalls == [])
            && s.callbacks == (if s.alive then [] else [s.msgHits])
            && (s.listings == [] && s.headerCalls == [] ==> (s.alive <==> s.collected == []))
            && (s.listings == [] && s.failed == [] ==> (s.collected == [] <==> Awaited(roots) == multiset{}))
  {
    EveryState(e, roots, states, events, k);
    EveryStateConserves(e, roots, states, events, k);
    if states[k].collected != [] {
      assert states[k].collected[0] in multiset(states[k].collected);
    }
  }

  /** Folders are visited in the order they were collected, and every one once: if no listing failed, those are
      all folders below the accounts, in whatever order the listings came. */
  lemma EveryFolderIsVisitedOnce(e: Env, roots: seq<seq<Folder>>, states: seq<State>, events: seq<Event>, k: nat)
    requires IsRun(e, roots, states, events) && k < |states|
    ensures var s := states[k];
            && FoldersOf(s.visited) <= s.collected
            && (!s.alive ==> FoldersOf(s.visited) == s.collected)
            && (!s.alive && s.failed == [] ==> multiset(FoldersOf(s.visited)) == Awaited(roots))
  {
    EveryState(e, roots, states, events, k);
    EveryStateConserves(e, roots, states, events, k);
    var s := states[k];
    if !s.alive {
      assert s.collected == FoldersOf(s.visited) + [];
    }
  }

  lemma OneMoreVisit(vs: seq<Visit>)
    requires vs != []
    ensures multiset(vs) == multiset(vs[..|vs| - 1]) + multiset{vs[|vs| - 1]}
  {
    assert vs == vs[..|vs| - 1] + [vs[|vs| - 1]];
  }

  /** How often a header of a folder is a hit. */
  ghost function Hits(e: Env, f: Folder, h: Header): nat {
    if IsHit(e, f, h) then multiset(e.headersOf(f))[h] else 0
  }

  ghost function HitsOfVisit(e: Env, v: Visit): seq<Hit> {
    if v.searched then Found(e, v.folder, e.headersOf(v.folder)) else []
  }

  lemma VisitHits(e: Env, v: Visit, f: Folder, h: Header)
    ensures multiset(HitsOfVisit(e, v))[Hit(f, h)] == if v == Visit(f, true) then Hits(e, f, h) else 0
  {
    FoundExactlyHits(e, v.folder, e.headersOf(v.folder), h);
  }

  lemma HitsAdd(e: Env, vs: seq<Visit>, hit: Hit)
    requires vs != []
    ensures multiset(HitsOf(e, vs))[hit]
         == multiset(HitsOfVisit(e, vs[|vs| - 1]))[hit] + multiset(HitsOf(e, vs[..|vs| - 1]))[hit]
  {
    assert HitsOf(e, vs) == HitsOfVisit(e, vs[|vs| - 1]) + HitsOf(e, vs[..|vs| - 1]);
  }

  lemma OneTimeMore(here: bool, n: nat, x: nat, own: nat)
    requires own == if here then x else 0
    ensures (if here then n + 1 else n) * x == own + n * x
  {
  }

  lemma OneMoreSearch(vs: seq<Visit>, f: Folder)
    requires vs != []
    ensures var n := multiset(vs[..|vs| - 1])[Visit(f, true)];
            multiset(vs)[Visit(f, true)] == if vs[|vs| - 1] == Visit(f, true) then n + 1 else n
  {
    OneMoreVisit(vs);
  }

  lemma {:induction false} HitCount(e: Env, vs: seq<Visit>, f: Folder, h: Header)
    ensures multiset(HitsOf(e, vs))[Hit(f, h)] == multiset(vs)[Visit(f, true)] * Hits(e, f, h)
  {
    if vs != [] {
      var front, v := vs[..|vs| - 1], vs[|vs| - 1];
      HitCount(e, front, f, h);
      HitsAdd(e, vs, Hit(f, h));
      VisitHits(e, v, f, h);
      OneMoreSearch(vs, f);
      OneTimeMore(v == Visit(f, true), multiset(front)[Visit(f, true)], Hits(e, f, h),
                  multiset(HitsOfVisit(e, v))[Hit(f, h)]);
    }
  }

  /** A folder is visited as often as it was collected, and searched every time unless it is not wanted or its headers
      did not come. */
  lemma {:induction false} SearchCount(e: Env, unread: set<Folder>, vs: seq<Visit>, f: Folder)
    requires forall v :: v in vs ==> IsFair(e, unread, v)
    ensures multiset(vs)[Visit(f, true)] + multiset(vs)[Visit(f, false)] == multiset(FoldersOf(vs))[f]
    ensures !WantsFolder(e.search, f) ==> multiset(vs)[Visit(f, true)] == 0
    ensures WantsFolder(e.search, f) && f !in unread ==> multiset(vs)[Visit(f, false)] == 0
  {
    if vs != [] {
      OneMoreVisit(vs);
      SearchCount(e, unread, vs[..|vs| - 1], f);
      assert vs[|vs| - 1] in vs;
    }
  }

  // ----- folders whose headers did not come -----

  /** They were visited without being searched. */
  predicate UnreadVisited(s: State) {
    forall f :: f in s.unread ==> Visit(f, false) in s.visited
  }

  lemma {:induction false} HeadersDoneExtends(e: Env, s: State, searched: bool)
    requires s.allFolders != []
    ensures var s' := HeadersDone(e, s, s.allFolders[0], searched);
            s.visited + [Visit(s.allFolders[0], searched)] <= s'.visited && s'.unread == s.unread
    decreases |s.allFolders|
  {
    HeadersDoneIs(e, s, searched);
    var s' := Visited(e, s, searched);
    if s'.allFolders != [] && !WantsFolder(e.search, s'.allFolders[0]) {
      HeadersDoneExtends(e, s', false);
    }
  }

  lemma UnreadGrows(s: State, s': State, v: Visit)
    requires UnreadVisited(s) && s.visited + [v] <= s'.visited
    requires s'.unread == if v.searched then s.unread else s.unread + {v.folder}
    ensures UnreadVisited(s')
  {
    forall f | f in s'.unread ensures Visit(f, false) in s'.visited {
      assert Visit(f, false) in s.visited + [v];
      assert Visit(f, false) in s'.visited[..|s.visited| + 1];
    }
  }

  lemma ListedUnread(e: Env, s: State, i: nat, nothing: bool)
    requires Listing(s) && s.unread == {} && i < |s.listings|
    ensures FoldersListed(e, s, i, nothing).unread == {}
  {
    var s' := Collected(s, i, nothing);
    if s'.pendingCalls == 0 {
      SearchFirstKeeps(e, s');
    }
  }

  lemma HeadersUnread(e: Env, s: State, ok: bool)
    requires Searching(e, s) && UnreadVisited(s)
    ensures UnreadVisited(HeadersCame(e, s, ok))
  {
    var f := s.allFolders[0];
    var s1 := s.(headerCalls := s.headerCalls[1..], unread := if ok then s.unread else s.unread + {f});
    HeadersDoneExtends(e, s1, ok);
    UnreadGrows(s, HeadersDone(e, s1, f, ok), Visit(f, ok));
  }

  lemma StepUnread(e: Env, s: State, ev: Event)
    requires Inv(e, s) && Enabled(s, ev) && UnreadVisited(s) && (Listing(s) ==> s.unread == {})
    ensures var s' := Step(e, s, ev); UnreadVisited(s') && (Listing(s') ==> s'.unread == {})
  {
    match ev
    case Listed(i, cancelled, err) => ListedUnread(e, s, i, cancelled || err);
    case GotHeaders(cancelled, err) =>
      HeadersUnread(e, s, !cancelled && !err);
      HeadersCameKeeps(e, s, !cancelled && !err);
  }

  lemma EveryStateUnread(e: Env, roots: seq<seq<Folder>>, states: seq<State>, events: seq<Event>, k: nat)
    requires IsRun(e, roots, states, events) && k < |states|
    ensures UnreadVisited(states[k])
  {
    for j := 0 to k
      invariant UnreadVisited(states[j]) && (Listing(states[j]) ==> states[j].unread == {})
    {
      EveryState(e, roots, states, events, j);
      StepUnread(e, states[j], events[j]);
    }
  }

  /** A search that has ended, with failures or without, reports each message of a folder once for each time it is
      there and the folder was searched, if it is a hit. A folder wanted whose headers came whenever they were asked
      for was searched each time it was collected, and one whose headers did not come fewer times; others never. */
  lemma HitsAreExact(e: Env, roots: seq<seq<Folder>>, states: seq<State>, events: seq<Event>, k: nat,
                     f: Folder, h: Header)
    requires IsRun(e, roots, states, events) && k < |states| && !states[k].alive
    ensures var s := states[k];
            var times, collected := multiset(s.visited)[Visit(f, true)], multiset(s.collected)[f];
            && |s.callbacks| == 1
            && multiset(s.callbacks[0])[Hit(f, h)]
               == times * (if IsHit(e, f, h) then multiset(e.headersOf(f))[h] else 0)
            && (WantsFolder(e.search, f) && f !in s.unread ==> times == collected)
            && (f in s.unread ==> times < collected)
            && (!WantsFolder(e.search, f) ==> times == 0)
            && (s.failed == [] ==> collected == Awaited(roots)[f])
  {
    EveryState(e, roots, states, events, k);
    EveryFolderIsVisitedOnce(e, roots, states, events, k);
    EveryStateUnread(e, roots, states, events, k);
    HitsOfOver(e, states[k], f, h);
  }

  lemma HitsOfOver(e: Env, s: State, f: Folder, h: Header)
    requires Over(e, s) && UnreadVisited(s) && FoldersOf(s.visited) == s.collected
    ensures var times, collected := multiset(s.visited)[Visit(f, true)], multiset(s.collected)[f];
            && s.callbacks == [s.msgHits]
            && multiset(s.msgHits)[Hit(f, h)] == times * Hits(e, f, h)
            && (WantsFolder(e.search, f) && f !in s.unread ==> times == collected)
            && (f in s.unread ==> times < collected)
            && (!WantsFolder(e.search, f) ==> times == 0)
  {
    HitCount(e, s.visited, f, h);
    SearchCount(e, s.unread, s.visited, f);
  }

  /** What is left to do: listings, folders to be listed, and folders to be searched. */
  function Work(s: State): nat {
    |s.listings| + 2 * |Awaited(s.listings)| + |s.allFolders|
  }

  lemma {:induction false} StoresAreFewer(fs: seq<Folder>)
    ensures |Stores(fs)| <= |fs|
  {
    if fs != [] {
      StoresAreFewer(fs[..|fs| - 1]);
    }
  }

  lemma CollectedIsWork(s: State, i: nat, nothing: bool)
    requires i < |s.listings|
    ensures Work(Collected(s, i, nothing)) < Work(s)
  {
    AwaitedWithout(s.listings, i);
    var fs := s.listings[i];
    if !nothing {
      AwaitedConcat(Without(s.listings, i), Stores(fs));
      StoresShare(fs);
      StoresAreFewer(fs);
      assert |BelowAll(fs)| == |fs| + |Awaited(Stores(fs))|;
    }
  }

  lemma StepIsWork(e: Env, s: State, ev: Event)
    requires Inv(e, s) && Enabled(s, ev)
    ensures Work(Step(e, s, ev)) < Work(s)
  {
    match ev
    case Listed(i, cancelled, err) =>
      CollectedIsWork(s, i, cancelled || err);
      var s' := Collected(s, i, cancelled || err);
      if s'.pendingCalls == 0 {
        SearchFirstKeeps(e, s');
      }
    case GotHeaders(cancelled, err) =>
      HeadersCameKeeps(e, s, !cancelled && !err);
  }

  /** Every search ends: a run has at most one callback for each account and two for each folder. */
  lemma {:induction false} RunsAreBounded(e: Env, roots: seq<seq<Folder>>, states: seq<State>, events: seq<Event>,
                                          k: nat)
    requires IsRun(e, roots, states, events) && k < |states|
    ensures k + Work(states[k]) <= |roots| + 2 * |Awaited(roots)|
  {
    if k > 0 {
      RunsAreBounded(e, roots, states, events, k - 1);
      EveryState(e, roots, states, events, k - 1);
      StepIsWork(e, states[k - 1], events[k - 1]);
    }
  }

  /** Searching all accounts when there are none never calls back: there is nothing to wait for. */
  lemma NoAccountsNoCallback(e: Env, states: seq<State>, events: seq<Event>)
    requires IsRun(e, [], states, events)
    ensures events == [] && states[0].callbacks == []
  {
    assert events != [] ==> Enabled(states[0], events[0]);
  }

  lemma LastListing(e: Env, s: State, i: nat, nothing: bool)
    requires Listing(s) && i < |s.listings|
    ensures var s' := FoldersListed(e, s, i, nothing); s'.undefined <==> s'.listings == [] && s'.collected == []
  {
    var s' := Collected(s, i, nothing);
    if s'.pendingCalls == 0 {
      SearchFirstKeeps(e, s');
      UndefinedFirst(e, s');
    }
  }

  lemma UndefinedFirst(e: Env, s: State)
    requires s.pendingCalls == 0 && s.listings == [] && s.alive && !s.undefined
    requires s.headerCalls == [] && s.msgHits == [] && s.callbacks == []
    requires s.visited == [] && s.allFolders == s.collected
    ensures SearchFirst(e, s).undefined <==> s.collected == []
  {
    assert [] + s.allFolders == s.collected;
    if s.allFolders != [] && !WantsFolder(e.search, s.allFolders[0]) {
      HeadersDoneKeeps(e, s, false);
    }
  }

  lemma StepUndefined(e: Env, s: State, ev: Event, s': State)
    requires Inv(e, s) && Enabled(s, ev) && s' == Step(e, s, ev)
    ensures s'.undefined <==> s'.listings == [] && s'.collected == []
  {
    match ev
    case Listed(i, cancelled, err) => LastListing(e, s, i, cancelled || err);
    case GotHeaders(cancelled, err) => HeadersCameKeeps(e, s, !cancelled && !err);
  }

  /** In any run over at least one account the search goes on to a folder that does not exist exactly when all
      listings are over and have brought no folder. */
  lemma NoFolderIsSearched(e: Env, roots: seq<seq<Folder>>, states: seq<State>, events: seq<Event>, k: nat)
    requires IsRun(e, roots, states, events) && k < |states| && roots != []
    ensures states[k].undefined <==> states[k].listings == [] && states[k].collected == []
  {
    if k > 0 {
      EveryState(e, roots, states, events, k - 1);
      StepUndefined(e, states[k - 1], events[k - 1], states[k]);
    }
  }

  /** modest_search_folder: the search of one folder calls back once, with its hits or, if it is not the folder
      asked for, without any. */
  lemma OneFolder(e: Env, f: Folder, ok: bool)
    ensures var s := Started([]).(headerCalls := [f]);
            var s' := HeadersCame(e, s, ok);
            !s'.alive && s'.callbacks == [if ok then Found(e, f, e.headersOf(f)) else []]
    ensures HeadersDone(e, Started([]), f, false).callbacks == [[]]
  {
    assert Found(e, f, e.headersOf(f)) + [] == Found(e, f, e.headersOf(f));
  }
}
