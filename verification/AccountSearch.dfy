/** Searching accounts as a state machine: first all folders are listed, by asynchronous calls that share one
    helper; then they are searched one by one, each header list being asked for by another call. */
module AccountSearch {
  import opened Sequences
  import opened FolderTrees
  import opened Messages
  import opened MessageSearch

  /** A folder taken from all_folders, and whether its headers were searched. */
  datatype Visit = Visit(folder: Folder, searched: bool)

  datatype State = State(
    // SearchHelper
    pendingCalls: int,
    msgHits: seq<Hit>,
    allFolders: seq<Folder>,
    alive: bool,
    // outstanding in the main loop
    listings: seq<seq<Folder>>,
    headerCalls: seq<Folder>,
    // seen from outside
    callbacks: seq<seq<Hit>>,
    undefined: bool,              // a folder was searched that does not exist
    // history
    collected: seq<Folder>,       // ever added to all_folders
    visited: seq<Visit>,
    failed: seq<seq<Folder>>,     // listings that failed
    unread: set<Folder>)          // folders whose header call failed

  datatype Event = Listed(i: nat, cancelled: bool, err: bool) | GotHeaders(cancelled: bool, err: bool)

  /** modest_search_account for one root, modest_search_all_accounts for any number. */
  function Started(roots: seq<seq<Folder>>): State {
    State(|roots|, [], [], true, roots, [], [], false, [], [], [], {})
  }

  /** The header list asked for is always that of the first folder left, as the invariant below shows. */
  predicate Enabled(s: State, ev: Event) {
    match ev
    case Listed(i, cancelled, err) => i < |s.listings|
    case GotHeaders(cancelled, err) =>
      s.headerCalls != [] && (s.allFolders == [] || s.headerCalls[0] == s.allFolders[0])
  }

  ghost function Step(e: Env, s: State, ev: Event): State
    requires Enabled(s, ev)
  {
    match ev
    case Listed(i, cancelled, err) => FoldersListed(e, s, i, cancelled || err)
    case GotHeaders(cancelled, err) =>
      HeadersCame(e, s, !cancelled && !err)
  }

  /** The children of the folders that are stores. */
  function Stores(fs: seq<Folder>): seq<seq<Folder>> {
    if fs == [] then []
    else
      var f := fs[|fs| - 1];
      Stores(fs[..|fs| - 1]) + if f.isStore then [f.children] else []
  }

  /** modest_search_account_get_folders_cb. */
  ghost function FoldersListed(e: Env, s: State, i: nat, nothing: bool): State
    requires i < |s.listings|
  {
    var s' := Collected(s, i, nothing);
    if s'.pendingCalls == 0 then SearchFirst(e, s') else s'
  }

  /** A listing adds its folders and asks for what is below those that are stores. */
  function Collected(s: State, i: nat, nothing: bool): State
    requires i < |s.listings|
  {
    var fs := s.listings[i];
    var rest := Without(s.listings, i);
    if nothing then s.(listings := rest, pendingCalls := s.pendingCalls - 1, failed := s.failed + [fs])
    else s.(listings := rest + Stores(fs), pendingCalls := s.pendingCalls + |Stores(fs)| - 1,
            allFolders := s.allFolders + fs, collected := s.collected + fs)
  }

  /** The search takes the first folder without asking whether there is one. */
  ghost function SearchFirst(e: Env, s: State): State {
    if s.allFolders == [] then s.(undefined := true) else SearchFolder(e, s)
  }

  predicate WantsFolder(s: Search, f: Folder) {
    if s.folder.None? || s.folder.value == "" then true
    else if s.folder.value == "outbox" then f.kind == Outbox
    else f.id == s.folder.value
  }

  /** _search_folder on the first folder. */
  ghost function SearchFolder(e: Env, s: State): State
    requires s.allFolders != []
    decreases |s.allFolders|, 1
  {
    if !WantsFolder(e.search, s.allFolders[0]) then HeadersDone(e, s, s.allFolders[0], false)
    else s.(headerCalls := s.headerCalls + [s.allFolders[0]])
  }

  /** modest_search_folder_get_headers_cb. */
  ghost function HeadersDone(e: Env, s: State, f: Folder, searched: bool): State
    requires s.allFolders == [] || f == s.allFolders[0]
    decreases |s.allFolders|, 0
  {
    var s' := s.(msgHits := (if searched then Found(e, f, e.headersOf(f)) else []) + s.msgHits,
                 visited := s.visited + [Visit(f, searched)],
                 allFolders := RemoveFirst(s.allFolders, f));
    if s'.allFolders == [] then s'.(callbacks := s.callbacks + [s'.msgHits], alive := false)
    else SearchFolder(e, s')
  }

  ghost function HeadersCame(e: Env, s: State, ok: bool): State
    requires s.headerCalls != [] && (s.allFolders == [] || s.headerCalls[0] == s.allFolders[0])
  {
    var f := s.headerCalls[0];
    HeadersDone(e, s.(headerCalls := s.headerCalls[1..], unread := if ok then s.unread else s.unread + {f}), f, ok)
  }

  ghost predicate IsRun(e: Env, roots: seq<seq<Folder>>, states: seq<State>, events: seq<Event>) {
    && |states| == |events| + 1
    && states[0] == Started(roots)
    && forall k {:trigger events[k]} :: 0 <= k < |events| ==>
         Enabled(states[k], events[k]) && states[k + 1] == Step(e, states[k], events[k])
  }

  // ----- the phases of a search -----

  function FoldersOf(vs: seq<Visit>): seq<Folder> {
    if vs == [] then [] else FoldersOf(vs[..|vs| - 1]) + [vs[|vs| - 1].folder]
  }

  /** The hits of the visits, the latest in front. */
  ghost function HitsOf(e: Env, vs: seq<Visit>): seq<Hit> {
    if vs == [] then []
    else
      var v := vs[|vs| - 1];
      (if v.searched then Found(e, v.folder, e.headersOf(v.folder)) else []) + HitsOf(e, vs[..|vs| - 1])
  }

  predicate Listing(s: State) {
    && s.pendingCalls == |s.listings| && s.listings != [] && s.alive && !s.undefined
    && s.headerCalls == [] && s.msgHits == [] && s.callbacks == [] && s.visited == []
    && s.allFolders == s.collected
  }

  /** Only folders not wanted, and those whose headers did not come, are passed over. */
  predicate IsFair(e: Env, unread: set<Folder>, v: Visit) {
    if v.searched then WantsFolder(e.search, v.folder) else !WantsFolder(e.search, v.folder) || v.folder in unread
  }

  ghost predicate Visiting(e: Env, s: State) {
    && s.pendingCalls == 0 && s.listings == [] && !s.undefined
    && FoldersOf(s.visited) + s.allFolders == s.collected != []
    && s.msgHits == HitsOf(e, s.visited)
    && (forall k :: 0 <= k < |s.visited| ==> IsFair(e, s.unread, s.visited[k]))
    && s.callbacks == []
  }

  /** One folder's headers are being asked for. */
  ghost predicate Searching(e: Env, s: State) {
    && Visiting(e, s) && s.alive
    && s.allFolders != [] && s.headerCalls == [s.allFolders[0]] && WantsFolder(e.search, s.allFolders[0])
  }

  ghost predicate Over(e: Env, s: State) {
    && Visiting(e, s.(callbacks := [])) && !s.alive
    && s.allFolders == [] && s.headerCalls == [] && s.callbacks == [s.msgHits]
  }

  /** No folder was found, and no callback is left. */
  predicate Lost(s: State) {
    && s.pendingCalls == 0 && s.listings == [] && s.headerCalls == [] && s.alive
    && s.collected == s.allFolders == [] && s.callbacks == [] && s.visited == [] && s.msgHits == []
  }

  ghost predicate Inv(e: Env, s: State) {
    Listing(s) || Searching(e, s) || Over(e, s) || Lost(s)
  }

  lemma VisitStep(e: Env, vs: seq<Visit>, v: Visit)
    ensures FoldersOf(vs + [v]) == FoldersOf(vs) + [v.folder]
    ensures HitsOf(e, vs + [v])
         == (if v.searched then Found(e, v.folder, e.headersOf(v.folder)) else []) + HitsOf(e, vs)
  {
    assert (vs + [v])[..|vs|] == vs;
  }

  /** The state when the first folder is done with, before the search goes on. */
  ghost function Visited(e: Env, s: State, searched: bool): State
    requires s.allFolders != []
  {
    var f := s.allFolders[0];
    s.(msgHits := (if searched then Found(e, f, e.headersOf(f)) else []) + s.msgHits,
       visited := s.visited + [Visit(f, searched)], allFolders := s.allFolders[1..])
  }

  lemma VisitedKeeps(e: Env, s: State, searched: bool)
    requires Visiting(e, s) && s.allFolders != [] && IsFair(e, s.unread, Visit(s.allFolders[0], searched))
    ensures Visiting(e, Visited(e, s, searched))
  {
    var f := s.allFolders[0];
    VisitStep(e, s.visited, Visit(f, searched));
    assert s.allFolders == [f] + s.allFolders[1..];
  }

  lemma HeadersDoneIs(e: Env, s: State, searched: bool)
    requires s.allFolders != []
    ensures var s' := Visited(e, s, searched);
            HeadersDone(e, s, s.allFolders[0], searched)
            == if s'.allFolders == [] then s'.(callbacks := s.callbacks + [s'.msgHits], alive := false)
               else SearchFolder(e, s')
  {
  }

  /** A folder done with leads on to the next one wanted, or to the end. */
  lemma {:induction false} HeadersDoneKeeps(e: Env, s: State, searched: bool)
    requires Visiting(e, s) && s.alive && s.allFolders != [] && s.headerCalls == []
    requires IsFair(e, s.unread, Visit(s.allFolders[0], searched))
    ensures var s' := HeadersDone(e, s, s.allFolders[0], searched);
            && (Searching(e, s') || Over(e, s'))
            && s'.collected == s.collected && s'.failed == s.failed && s'.unread == s.unread
            && |s'.allFolders| < |s.allFolders|
    decreases |s.allFolders|
  {
    VisitedKeeps(e, s, searched);
    HeadersDoneIs(e, s, searched);
    var s' := Visited(e, s, searched);
    if s'.allFolders != [] && !WantsFolder(e.search, s'.allFolders[0]) {
      HeadersDoneKeeps(e, s', false);
    }
  }

  lemma SearchFirstKeeps(e: Env, s: State)
    requires s.pendingCalls == 0 && s.listings == [] && s.alive && !s.undefined
    requires s.headerCalls == [] && s.msgHits == [] && s.callbacks == []
    requires s.visited == [] && s.allFolders == s.collected
    ensures var s' := SearchFirst(e, s);
            && Inv(e, s') && !Listing(s')
            && s'.collected == s.collected && s'.failed == s.failed && s'.unread == s.unread
    ensures |SearchFirst(e, s).allFolders| <= |s.allFolders|
  {
    assert [] + s.allFolders == s.collected;
    if s.allFolders != [] && !WantsFolder(e.search, s.allFolders[0]) {
      HeadersDoneKeeps(e, s, false);
    }
  }

  lemma ListedKeeps(e: Env, s: State, i: nat, nothing: bool)
    requires Listing(s) && i < |s.listings|
    ensures Inv(e, FoldersListed(e, s, i, nothing))
  {
    var s' := Collected(s, i, nothing);
    if s'.pendingCalls == 0 {
      SearchFirstKeeps(e, s');
    }
  }

  lemma HeadersCameKeeps(e: Env, s: State, ok: bool)
    requires Searching(e, s)
    ensures var s' := HeadersCame(e, s, ok);
            (Searching(e, s') || Over(e, s')) && s'.collected == s.collected && s'.failed == s.failed
            && s'.unread == (if ok then s.unread else s.unread + {s.allFolders[0]}) && |s'.allFolders| < |s.allFolders|
  {
    assert s.headerCalls[1..] == [];
    HeadersDoneKeeps(e, s.(headerCalls := [], unread := if ok then s.unread else s.unread + {s.allFolders[0]}), ok);
  }

  lemma StepKeepsInv(e: Env, s: State, ev: Event)
    requires Inv(e, s) && Enabled(s, ev)
    ensures Inv(e, Step(e, s, ev))
  {
    match ev
    case Listed(i, cancelled, err) => ListedKeeps(e, s, i, cancelled || err);
    case GotHeaders(cancelled, err) =>
      HeadersCameKeeps(e, s, !cancelled && !err);
  }

  lemma {:induction false} EveryState(e: Env, roots: seq<seq<Folder>>, states: seq<State>, events: seq<Event>, k: nat)
    requires IsRun(e, roots, states, events) && k < |states|
    ensures Inv(e, states[k])
  {
    if k > 0 {
      EveryState(e, roots, states, events, k - 1);
      StepKeepsInv(e, states[k - 1], events[k - 1]);
    }
  }
}
