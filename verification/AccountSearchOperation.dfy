/** The callbacks of a search on the helper they share, step by step as the main loop runs them. Each is proved
    to take the state machine of AccountSearch along its step. */
module AccountSearchOperation {
  import opened Sequences
  import opened FolderTrees
  import opened Messages
  import opened MessageSearch
  import opened AccountSearch

  datatype SearchHelper = SearchHelper(pendingCalls: int, msgHits: seq<Hit>, allFolders: seq<Folder>, alive: bool)

  datatype MainLoop = MainLoop(listings: seq<seq<Folder>>, headerCalls: seq<Folder>)

  datatype History = History(
    callbacks: seq<seq<Hit>>, undefined: bool, collected: seq<Folder>, visited: seq<Visit>, failed: seq<seq<Folder>>,
    unread: set<Folder>)

  lemma StoresStep(fs: seq<Folder>, k: nat)
    requires k < |fs|
    ensures Stores(fs[..k + 1]) == Stores(fs[..k]) + if fs[k].isStore then [fs[k].children] else []
    ensures fs[..k + 1] == fs[..k] + [fs[k]]
  {
    assert fs[..k + 1][..k] == fs[..k];
  }

  lemma OneInFront(hit: Hit, found: seq<Hit>, hits: seq<Hit>)
    ensures [hit] + (found + hits) == ([hit] + found) + hits
    ensures [] + found == found
  {
  }

  class Searcher {
    const env: Env
    var helper: SearchHelper
    var loop: MainLoop
    ghost var history: History

    ghost function View(): State
      reads this
    {
      State(helper.pendingCalls, helper.msgHits, helper.allFolders, helper.alive, loop.listings, loop.headerCalls,
            history.callbacks, history.undefined, history.collected, history.visited, history.failed, history.unread)
    }

    /** modest_search_all_accounts. */
    constructor (e: Env, roots: seq<seq<Folder>>)
      ensures env == e && View() == Started(roots)
    {
      env := e;
      helper := SearchHelper(0, [], [], true);
      loop := MainLoop([], []);
      history := History([], false, [], [], [], {});
      new;
      var i := 0;
      while i < |roots|
        invariant i <= |roots|
        invariant helper == SearchHelper(i, [], [], true) && loop == MainLoop(roots[..i], [])
        invariant history == History([], false, [], [], [], {})
      {
        assert roots[..i + 1] == roots[..i] + [roots[i]];
        helper := helper.(pendingCalls := helper.pendingCalls + 1);
        loop := loop.(listings := loop.listings + [roots[i]]);
        i := i + 1;
      }
      assert roots[..i] == roots;
    }

    // ----- one header -----

    method AddHit(folder: Folder, header: Header)
      modifies this`helper
      ensures helper == old(helper).(msgHits := [Hit(folder, header)] + old(helper).msgHits)
    {
      helper := helper.(msgHits := [Hit(folder, header)] + helper.msgHits);
    }

    method SearchFields(folder: Folder, cur: Header) returns (found: bool)
      modifies this`helper
      ensures found == HasField(env, cur)
      ensures helper == if found then old(helper).(msgHits := [Hit(folder, cur)] + old(helper).msgHits) else old(helper)
    {
      var s := env.search;
      found := false;
      if s.bySubject {
        found := SearchString(env, s.subject, cur.subject);
        if found { AddHit(folder, cur); }
      }
      if !found && s.bySender {
        found := SearchString(env, s.from, cur.sender);
        if found { AddHit(folder, cur); }
      }
      if !found && s.byRecipient {
        found := SearchString(env, s.recipient, cur.recipient);
        if found { AddHit(folder, cur); }
      }
    }

    method SearchBody(folder: Folder, cur: Header)
      requires env.search.byBody
      modifies this`helper
      ensures helper == if HasBody(env, folder, cur)
                        then old(helper).(msgHits := [Hit(folder, cur)] + old(helper).msgHits)
                        else old(helper)
    {
      if !cur.cached {
        return;
      }
      var msg := env.fetch(folder, cur);
      if msg.Some? {
        var found := SearchMimePartAndChildParts(msg.value, env);
        if found { AddHit(folder, cur); }
      }
    }

    /** The body of the loop over headers: a hit is added at most once. */
    method SearchHeader(folder: Folder, cur: Header)
      modifies this`helper
      ensures helper == if IsHit(env, folder, cur)
                        then old(helper).(msgHits := [Hit(folder, cur)] + old(helper).msgHits)
                        else old(helper)
    {
      var s := env.search;
      var t := cur.dateSent;
      if cur.deleted {
        return;
      }
      if s.before {
        if !(t <= s.endDate) { return; }
      }
      if s.after {
        if !(t >= s.startDate) { return; }
      }
      if s.bySize {
        if cur.size < s.minSize { return; }
      }
      var found := SearchFields(folder, cur);
      if !found && s.byBody {
        SearchBody(folder, cur);
      }
    }

    // ----- the folders one by one -----

    method SearchHeaders(folder: Folder)
      modifies this`helper
      ensures helper == old(helper).(msgHits := Found(env, folder, env.headersOf(folder)) + old(helper).msgHits)
    {
      var headers := env.headersOf(folder);
      var i := 0;
      ghost var found: seq<Hit>, hits := [], helper.msgHits;
      while i < |headers|
        invariant i <= |headers| && found == Found(env, folder, headers[..i])
        invariant helper == old(helper).(msgHits := found + hits)
      {
        FoundStep(env, folder, headers, i);
        SearchHeader(folder, headers[i]);
        OneInFront(Hit(folder, headers[i]), found, hits);
        found := (if IsHit(env, folder, headers[i]) then [Hit(folder, headers[i])] else []) + found;
        i := i + 1;
      }
      assert headers[..i] == headers;
    }

    method RemoveFolder(folder: Folder)
      requires helper.allFolders == [] || folder == helper.allFolders[0]
      modifies this`helper
      ensures helper == old(helper).(allFolders := RemoveFirst(old(helper).allFolders, folder))
    {
      if helper.allFolders != [] {
        helper := helper.(allFolders := helper.allFolders[1..]);
      }
    }

    method GetHeadersCb(folder: Folder, searched: bool)
      requires helper.allFolders == [] || folder == helper.allFolders[0]
      modifies this
      ensures View() == HeadersDone(env, old(View()), folder, searched)
      decreases |helper.allFolders|, 0
    {
      if searched {
        SearchHeaders(folder);
      } else {
        assert [] + helper.msgHits == helper.msgHits;
      }
      history := history.(visited := history.visited + [Visit(folder, searched)]);
      RemoveFolder(folder);
      if |helper.allFolders| == 0 {
        history := history.(callbacks := history.callbacks + [helper.msgHits]);
        helper := helper.(alive := false);
      } else {
        SearchFirstFolder();
      }
    }

    method SearchFirstFolder()
      requires helper.allFolders != []
      modifies this
      ensures View() == SearchFolder(env, old(View()))
      decreases |helper.allFolders|, 1
    {
      var first := helper.allFolders[0];
      var s := env.search;
      if s.folder.Some? && s.folder.value != "" {
        if s.folder.value == "outbox" {
          if first.kind != Outbox {
            GetHeadersCb(first, false);
            return;
          }
        } else if first.id != s.folder.value {
          GetHeadersCb(first, false);
          return;
        }
      }
      loop := loop.(headerCalls := loop.headerCalls + [first]);
    }

    method HeadersArrived(cancelled: bool, err: bool)
      requires Enabled(View(), GotHeaders(cancelled, err))
      modifies this
      ensures View() == HeadersCame(env, old(View()), !cancelled && !err)
    {
      var folder := loop.headerCalls[0];
      loop := loop.(headerCalls := loop.headerCalls[1..]);
      if cancelled || err {
        history := history.(unread := history.unread + {folder});
      }
      GetHeadersCb(folder, !cancelled && !err);
    }

    // ----- listing the folders -----

    method AddFolders(folders: seq<Folder>)
      modifies this`helper, this`loop, this`history
      ensures helper == old(helper).(pendingCalls := old(helper).pendingCalls + |Stores(folders)|,
                                     allFolders := old(helper).allFolders + folders)
      ensures loop == old(loop).(listings := old(loop).listings + Stores(folders))
      ensures history == old(history).(collected := old(history).collected + folders)
    {
      var i := 0;
      history := history.(collected := history.collected + folders);
      while i < |folders|
        invariant i <= |folders|
        invariant helper == old(helper).(pendingCalls := old(helper).pendingCalls + |Stores(folders[..i])|,
                                         allFolders := old(helper).allFolders + folders[..i])
        invariant loop == old(loop).(listings := old(loop).listings + Stores(folders[..i]))
        invariant history == old(history).(collected := old(history).collected + folders)
      {
        StoresStep(folders, i);
        var folder := folders[i];
        helper := helper.(allFolders := helper.allFolders + [folder]);
        if folder.isStore {
          helper := helper.(pendingCalls := helper.pendingCalls + 1);
          loop := loop.(listings := loop.listings + [folder.children]);
        }
        i := i + 1;
      }
      assert folders[..i] == folders;
    }

    method GetFoldersCb(i: nat, cancelled: bool, err: bool)
      requires i < |loop.listings|
      modifies this
      ensures View() == FoldersListed(env, old(View()), i, cancelled || err)
    {
      var folders := loop.listings[i];
      loop := loop.(listings := Without(loop.listings, i));
      if err || cancelled {
        history := history.(failed := history.failed + [folders]);
      } else {
        AddFolders(folders);
      }
      helper := helper.(pendingCalls := helper.pendingCalls - 1);
      if helper.pendingCalls == 0 {
        if helper.allFolders == [] {
          history := history.(undefined := true);
        } else {
          SearchFirstFolder();
        }
      }
    }
  }
}
