/** What a search reports, told from the fields of messages and of the search alone. */
module AccountSearchHits {
  import opened Sequences
  import opened FolderTrees
  import opened Messages
  import opened BodySearch
  import opened MessageSearch
  import opened AccountSearch
  import opened AccountSearchTheorems

  // ----- the parts of a message -----

  /** The children to go down by, none of them nor the part they lead to an attachment that is not a message. */
  predicate IsSearchedPath(p: MimePart, path: seq<nat>)
    decreases |path|
  {
    && (p.isAttachment ==> p.isMsg)
    && (path != [] ==> path[0] < |p.children| && IsSearchedPath(p.children[path[0]], path[1..]))
  }

  function PartAt(p: MimePart, path: seq<nat>): MimePart
    requires IsSearchedPath(p, path)
    decreases |path|
  {
    if path == [] then p else PartAt(p.children[path[0]], path[1..])
  }

  lemma {:induction false} SearchedInOne(ps: seq<MimePart>, q: MimePart) returns (i: nat)
    requires q in SearchedIn(ps)
    ensures i < |ps| && q in SearchedParts(ps[i])
  {
    if q in SearchedParts(ps[|ps| - 1]) {
      i := |ps| - 1;
    } else {
      i := SearchedInOne(ps[..|ps| - 1], q);
    }
  }

  lemma {:induction false} OneIsSearchedIn(ps: seq<MimePart>, i: nat)
    requires i < |ps|
    ensures SearchedParts(ps[i]) <= SearchedIn(ps)
  {
    SearchedStep(ps, i);
    SearchedGrows(ps, i + 1);
  }

  lemma {:induction false} PathTo(p: MimePart, q: MimePart) returns (path: seq<nat>)
    requires q in SearchedParts(p)
    ensures IsSearchedPath(p, path) && PartAt(p, path) == q
    decreases p
  {
    if q == p {
      path := [];
    } else {
      var i := SearchedInOne(p.children, q);
      var rest := PathTo(p.children[i], q);
      path := [i] + rest;
      assert path[1..] == rest;
    }
  }

  lemma {:induction false} PathIsSearched(p: MimePart, path: seq<nat>)
    requires IsSearchedPath(p, path)
    ensures PartAt(p, path) in SearchedParts(p)
    decreases |path|
  {
    if path != [] {
      PathIsSearched(p.children[path[0]], path[1..]);
      OneIsSearchedIn(p.children, path[0]);
    }
  }

  // ----- what qualifies -----

  /** The window finds the body searched for in a part that a path leads to. */
  ghost predicate BodyQualifies(e: Env, p: MimePart) {
    exists path ::
      && IsSearchedPath(p, path)
      && SomeWindow(e.matches, e.search.body, PartAt(p, path).text, PartAt(p, path).fails)
  }

  lemma BodyMatchesExactly(e: Env, p: MimePart)
    ensures PartMatches(e, p) <==> BodyQualifies(e, p)
  {
    if PartMatches(e, p) {
      var q :| q in SearchedParts(p) && TextMatches(e, q);
      var path := PathTo(p, q);
      assert IsSearchedPath(p, path);
    }
    if BodyQualifies(e, p) {
      var path :| IsSearchedPath(p, path)
        && SomeWindow(e.matches, e.search.body, PartAt(p, path).text, PartAt(p, path).fails);
      PathIsSearched(p, path);
      assert TextMatches(e, PartAt(p, path));
    }
  }

  /** The message is not deleted, is not dated after the end nor before the start if these are set, is not smaller than
      the size asked for, and what is searched for is its subject, its sender, its recipient, or in its body. */
  ghost predicate Qualifies(e: Env, f: Folder, h: Header) {
    var s := e.search;
    && !h.deleted
    && (s.before ==> h.dateSent <= s.endDate)
    && (s.after ==> s.startDate <= h.dateSent)
    && (s.bySize ==> s.minSize <= h.size)
    && (|| (s.bySubject && s.subject.Some? && h.subject.Some? && e.same(s.subject.value, h.subject.value))
        || (s.bySender && s.from.Some? && h.sender.Some? && e.same(s.from.value, h.sender.value))
        || (s.byRecipient && s.recipient.Some? && h.recipient.Some? && e.same(s.recipient.value, h.recipient.value))
        || (s.byBody && h.cached && e.fetch(f, h).Some? && BodyQualifies(e, e.fetch(f, h).value)))
  }

  lemma HitsQualify(e: Env, f: Folder, h: Header)
    ensures IsHit(e, f, h) <==> Qualifies(e, f, h)
  {
    if e.fetch(f, h).Some? {
      BodyMatchesExactly(e, e.fetch(f, h).value);
    }
  }

  // ----- the order of the hits -----

  function Reversed<T>(s: seq<T>): (r: seq<T>)
    ensures |r| == |s| && forall k :: 0 <= k < |s| ==> r[k] == s[|s| - 1 - k]
  {
    if s == [] then [] else [s[|s| - 1]] + Reversed(s[..|s| - 1])
  }

  lemma ReversedSum<T>(a: seq<T>, b: seq<T>)
    ensures Reversed(a + b) == Reversed(b) + Reversed(a)
  {
  }

  /** The messages of a folder that qualify, in the order of the folder. */
  ghost function QualifyingIn(e: Env, f: Folder, hs: seq<Header>): seq<Hit> {
    if hs == [] then []
    else
      var h := hs[|hs| - 1];
      QualifyingIn(e, f, hs[..|hs| - 1]) + if Qualifies(e, f, h) then [Hit(f, h)] else []
  }

  /** Those of the folders searched, in the order they were visited. */
  ghost function Qualifying(e: Env, vs: seq<Visit>): seq<Hit> {
    if vs == [] then []
    else
      var v := vs[|vs| - 1];
      Qualifying(e, vs[..|vs| - 1]) + if v.searched then QualifyingIn(e, v.folder, e.headersOf(v.folder)) else []
  }

  lemma {:induction false} FoundReversed(e: Env, f: Folder, hs: seq<Header>)
    ensures Found(e, f, hs) == Reversed(QualifyingIn(e, f, hs))
  {
    if hs != [] {
      var front, h := hs[..|hs| - 1], hs[|hs| - 1];
      FoundReversed(e, f, front);
      HitsQualify(e, f, h);
      ReversedSum(QualifyingIn(e, f, front), if Qualifies(e, f, h) then [Hit(f, h)] else []);
    }
  }

  lemma {:induction false} HitsReversed(e: Env, vs: seq<Visit>)
    ensures HitsOf(e, vs) == Reversed(Qualifying(e, vs))
  {
    if vs != [] {
      var front, v := vs[..|vs| - 1], vs[|vs| - 1];
      HitsReversed(e, front);
      FoundReversed(e, v.folder, e.headersOf(v.folder));
      ReversedSum(Qualifying(e, front), if v.searched then QualifyingIn(e, v.folder, e.headersOf(v.folder)) else []);
    }
  }

  lemma {:induction false} QualifyingInExactly(e: Env, f: Folder, hs: seq<Header>, hit: Hit)
    ensures hit in QualifyingIn(e, f, hs) <==> hit.folder == f && hit.header in hs && Qualifies(e, f, hit.header)
  {
    if hs != [] {
      assert hs == hs[..|hs| - 1] + [hs[|hs| - 1]];
      QualifyingInExactly(e, f, hs[..|hs| - 1], hit);
    }
  }

  lemma {:induction false} QualifyingExactly(e: Env, vs: seq<Visit>, hit: Hit)
    ensures hit in Qualifying(e, vs)
       <==> && Visit(hit.folder, true) in vs && hit.header in e.headersOf(hit.folder)
            && Qualifies(e, hit.folder, hit.header)
  {
    if vs != [] {
      var front, v := vs[..|vs| - 1], vs[|vs| - 1];
      assert vs == front + [v];
      QualifyingExactly(e, front, hit);
      QualifyingInExactly(e, v.folder, e.headersOf(v.folder), hit);
    }
  }

  /** A search that has ended calls back with the messages that qualify in the folders searched: all of them and no
      others, the last found in front. */
  lemma ReportsWhatQualifies(e: Env, roots: seq<seq<Folder>>, states: seq<State>, events: seq<Event>, k: nat)
    requires IsRun(e, roots, states, events) && k < |states| && !states[k].alive
    ensures states[k].callbacks == [Reversed(Qualifying(e, states[k].visited))]
    ensures forall f, h :: Hit(f, h) in states[k].callbacks[0]
                      <==> && Visit(f, true) in states[k].visited && h in e.headersOf(f) && Qualifies(e, f, h)
  {
    var s := states[k];
    EveryState(e, roots, states, events, k);
    HitsReversed(e, s.visited);
    var all := Qualifying(e, s.visited);
    forall f, h
      ensures Hit(f, h) in Reversed(all) <==> Visit(f, true) in s.visited && h in e.headersOf(f) && Qualifies(e, f, h)
    {
      QualifyingExactly(e, s.visited, Hit(f, h));
      InReversed(all, Hit(f, h));
    }
  }

  lemma InReversed<T>(s: seq<T>, x: T)
    ensures x in Reversed(s) <==> x in s
  {
    if x in s {
      var i :| 0 <= i < |s| && s[i] == x;
      assert Reversed(s)[|s| - 1 - i] == x;
    }
  }

  // ----- the folders searched -----

  /** The listings that failed or were cancelled. */
  function FailedListings(states: seq<State>, events: seq<Event>, k: nat): seq<seq<Folder>>
    requires k <= |events| && |states| == |events| + 1
  {
    if k == 0 then []
    else
      var s, ev := states[k - 1], events[k - 1];
      FailedListings(states, events, k - 1)
      + if ev.Listed? && (ev.cancelled || ev.err) && ev.i < |s.listings| then [s.listings[ev.i]] else []
  }

  /** The folders whose headers failed to come or were cancelled. */
  function FailedHeaders(states: seq<State>, events: seq<Event>, k: nat): set<Folder>
    requires k <= |events| && |states| == |events| + 1
  {
    if k == 0 then {}
    else
      var s, ev := states[k - 1], events[k - 1];
      FailedHeaders(states, events, k - 1)
      + if ev.GotHeaders? && (ev.cancelled || ev.err) && s.headerCalls != [] then {s.headerCalls[0]} else {}
  }

  /** The folders of the other listings, as they came. */
  function ListedFolders(states: seq<State>, events: seq<Event>, k: nat): seq<Folder>
    requires k <= |events| && |states| == |events| + 1
  {
    if k == 0 then []
    else
      var s, ev := states[k - 1], events[k - 1];
      ListedFolders(states, events, k - 1)
      + if ev.Listed? && !ev.cancelled && !ev.err && ev.i < |s.listings| then s.listings[ev.i] else []
  }

  lemma ListingFrame(e: Env, s: State, i: nat, nothing: bool)
    requires Listing(s) && i < |s.listings|
    ensures var s' := FoldersListed(e, s, i, nothing);
            && s'.failed == (if nothing then s.failed + [s.listings[i]] else s.failed)
            && s'.collected == (if nothing then s.collected else s.collected + s.listings[i])
            && s'.unread == s.unread
  {
    var s' := Collected(s, i, nothing);
    if s'.pendingCalls == 0 {
      SearchFirstKeeps(e, s');
    }
  }

  lemma StepFailures(e: Env, s: State, ev: Event)
    requires Inv(e, s) && Enabled(s, ev)
    ensures var s' := Step(e, s, ev);
            && s'.collected == s.collected + (if ev.Listed? && !ev.cancelled && !ev.err then s.listings[ev.i] else [])
            && s'.failed == s.failed + (if ev.Listed? && (ev.cancelled || ev.err) then [s.listings[ev.i]] else [])
            && s'.unread == s.unread + (if ev.GotHeaders? && (ev.cancelled || ev.err) then {s.headerCalls[0]} else {})
  {
    match ev
    case Listed(i, cancelled, err) => ListingFrame(e, s, i, cancelled || err);
    case GotHeaders(cancelled, err) => HeadersCameKeeps(e, s, !cancelled && !err);
  }

  predicate FailuresTell(states: seq<State>, events: seq<Event>, k: nat)
    requires k <= |events| && |states| == |events| + 1
  {
    && states[k].failed == FailedListings(states, events, k)
    && states[k].unread == FailedHeaders(states, events, k)
    && states[k].collected == ListedFolders(states, events, k)
  }

  lemma OneMoreFailure(e: Env, states: seq<State>, events: seq<Event>, k: nat)
    requires |states| == |events| + 1 && k < |events| && FailuresTell(states, events, k)
    requires Inv(e, states[k]) && Enabled(states[k], events[k]) && states[k + 1] == Step(e, states[k], events[k])
    ensures FailuresTell(states, events, k + 1)
  {
    StepFailures(e, states[k], events[k]);
  }

  lemma RunFailures(e: Env, roots: seq<seq<Folder>>, states: seq<State>, events: seq<Event>, k: nat)
    requires IsRun(e, roots, states, events) && k < |events| && FailuresTell(states, events, k)
    ensures FailuresTell(states, events, k + 1)
  {
    EveryState(e, roots, states, events, k);
    assert Enabled(states[k], events[k]) && states[k + 1] == Step(e, states[k], events[k]);
    OneMoreFailure(e, states, events, k);
  }

  /** What a search misses is what failed or was cancelled, of the listings and of the headers asked for; the folders of
      the other listings are collected as they came. */
  lemma MissesWhatFailed(e: Env, roots: seq<seq<Folder>>, states: seq<State>, events: seq<Event>, k: nat)
    requires IsRun(e, roots, states, events) && k < |states|
    ensures states[k].failed == FailedListings(states, events, k)
    ensures states[k].unread == FailedHeaders(states, events, k)
    ensures states[k].collected == ListedFolders(states, events, k)
  {
    for j := 0 to k
      invariant FailuresTell(states, events, j)
    {
      RunFailures(e, roots, states, events, j);
    }
  }

  /** A folder is asked for: no folder is named, or the outbox and it is one, or it is named by its id. */
  predicate IsAskedFor(s: Search, f: Folder) {
    || s.folder.None? || s.folder == Some("")
    || (s.folder == Some("outbox") && f.kind == Outbox)
    || (s.folder != Some("outbox") && s.folder == Some(f.id))
  }

  /** Of the folders collected those asked for are searched, each in its turn, unless their headers did not come. */
  lemma SearchesWhatIsAskedFor(e: Env, roots: seq<seq<Folder>>, states: seq<State>, events: seq<Event>, k: nat,
                               v: Visit)
    requires IsRun(e, roots, states, events) && k < |states| && v in states[k].visited
    ensures v.searched ==> IsAskedFor(e.search, v.folder)
    ensures IsAskedFor(e.search, v.folder) && v.folder !in states[k].unread ==> v.searched
    ensures v.folder in states[k].collected
  {
    EveryState(e, roots, states, events, k);
    var i :| 0 <= i < |states[k].visited| && states[k].visited[i] == v;
    assert IsFair(e, states[k].unread, v);
    VisitIsCounted(states[k].visited, v);
    EveryFolderIsVisitedOnce(e, roots, states, events, k);
    assert v.folder in FoldersOf(states[k].visited);
  }

  lemma {:induction false} VisitIsCounted(vs: seq<Visit>, v: Visit)
    requires v in vs
    ensures v.folder in FoldersOf(vs)
  {
    if v in vs[..|vs| - 1] {
      VisitIsCounted(vs[..|vs| - 1], v);
    }
  }
}
