/** Whether a message is a hit of a search: the filters on its header, the fields compared, and its body. */
module MessageSearch {
  import opened Streams
  import opened FolderTrees
  import opened Messages
  import opened BodySearch

  /** ModestSearch; a flag that is not set makes the field beside it meaningless. */
  datatype Search = Search(
    folder: Option<string>,
    before: bool, endDate: int,
    after: bool, startDate: int,
    bySize: bool, minSize: int,
    bySubject: bool, subject: Option<string>,
    bySender: bool, from: Option<string>,
    byRecipient: bool, recipient: Option<string>,
    byBody: bool, body: seq<byte>)

  datatype MimePart = MimePart(isAttachment: bool, isMsg: bool, text: seq<byte>, fails: bool, children: seq<MimePart>)

  /** A search among folders: their headers, the messages that can be fetched, and the comparisons of a search
      string with a field and with what lies in the window over a body. */
  datatype Env = Env(
    search: Search,
    headersOf: Folder -> seq<Header>,
    fetch: (Folder, Header) -> Option<MimePart>,
    same: (string, string) -> bool,
    matches: (seq<byte>, seq<byte>) -> bool)

  datatype Hit = Hit(folder: Folder, header: Header)

  predicate SearchString(e: Env, what: Option<string>, where_: Option<string>) {
    what.Some? && where_.Some? && e.same(what.value, where_.value)
  }

  predicate PassesFilters(s: Search, h: Header) {
    && !h.deleted
    && (s.before ==> h.dateSent <= s.endDate)
    && (s.after ==> h.dateSent >= s.startDate)
    && (s.bySize ==> h.size >= s.minSize)
  }

  predicate HasField(e: Env, h: Header) {
    || (e.search.bySubject && SearchString(e, e.search.subject, h.subject))
    || (e.search.bySender && SearchString(e, e.search.from, h.sender))
    || (e.search.byRecipient && SearchString(e, e.search.recipient, h.recipient))
  }

  ghost predicate HasBody(e: Env, f: Folder, h: Header) {
    e.search.byBody && h.cached && e.fetch(f, h).Some? && PartMatches(e, e.fetch(f, h).value)
  }

  ghost predicate IsHit(e: Env, f: Folder, h: Header) {
    PassesFilters(e.search, h) && (HasField(e, h) || HasBody(e, f, h))
  }

  /** The term is found in one of the parts searched. */
  ghost predicate PartMatches(e: Env, p: MimePart) {
    exists q :: q in SearchedParts(p) && TextMatches(e, q)
  }

  ghost predicate TextMatches(e: Env, p: MimePart) {
    SomeWindow(e.matches, e.search.body, p.text, p.fails)
  }

  /** The part and those below it, without attachments that are not messages, and what is inside them. */
  function SearchedParts(p: MimePart): set<MimePart>
    decreases p
  {
    if p.isAttachment && !p.isMsg then {} else {p} + SearchedIn(p.children)
  }

  function SearchedIn(ps: seq<MimePart>): set<MimePart>
    decreases ps
  {
    if ps == [] then {} else SearchedIn(ps[..|ps| - 1]) + SearchedParts(ps[|ps| - 1])
  }

  lemma SearchedStep(ps: seq<MimePart>, i: nat)
    requires i < |ps|
    ensures SearchedIn(ps[..i + 1]) == SearchedIn(ps[..i]) + SearchedParts(ps[i])
  {
    assert ps[..i + 1][..i] == ps[..i];
  }

  /** search_mime_part_and_child_parts. */
  method SearchMimePartAndChildParts(part: MimePart, e: Env) returns (found: bool)
    ensures found <==> PartMatches(e, part)
    decreases part
  {
    if part.isAttachment && !part.isMsg {
      return false;
    }
    var stream := new Stream(part.text, part.fails);
    found := SearchMimePart(stream, e.search.body, e.matches);
    if found {
      assert TextMatches(e, part) && part in SearchedParts(part);
      return;
    }
    var i := 0;
    while !found && i < |part.children|
      invariant i <= |part.children|
      invariant found <==> exists q :: q in SearchedIn(part.children[..i]) && TextMatches(e, q)
    {
      SearchedStep(part.children, i);
      found := SearchMimePartAndChildParts(part.children[i], e);
      i := i + 1;
    }
    if found {
      ghost var q :| q in SearchedIn(part.children[..i]) && TextMatches(e, q);
      SearchedGrows(part.children, i);
    } else {
      assert part.children[..i] == part.children;
    }
  }

  lemma {:induction false} SearchedGrows(ps: seq<MimePart>, i: nat)
    requires i <= |ps|
    ensures SearchedIn(ps[..i]) <= SearchedIn(ps)
    decreases |ps| - i
  {
    if i < |ps| {
      SearchedStep(ps, i);
      SearchedGrows(ps, i + 1);
    } else {
      assert ps[..i] == ps;
    }
  }

  // ----- the hits in a folder -----

  /** The hits among the first headers of a folder; each new one is put in front. */
  ghost function Found(e: Env, f: Folder, hs: seq<Header>): seq<Hit> {
    if hs == [] then []
    else
      var h := hs[|hs| - 1];
      (if IsHit(e, f, h) then [Hit(f, h)] else []) + Found(e, f, hs[..|hs| - 1])
  }

  /** Every header that is a hit is found as often as it is in the folder, and no other is. */
  lemma {:induction false} FoundExactlyHits(e: Env, f: Folder, hs: seq<Header>, h: Header)
    ensures multiset(Found(e, f, hs))[Hit(f, h)] == if IsHit(e, f, h) then multiset(hs)[h] else 0
    ensures forall g, k :: g != f ==> multiset(Found(e, f, hs))[Hit(g, k)] == 0
  {
    if hs != [] {
      assert hs == hs[..|hs| - 1] + [hs[|hs| - 1]];
      FoundExactlyHits(e, f, hs[..|hs| - 1], h);
    }
  }

  lemma FoundStep(e: Env, f: Folder, hs: seq<Header>, i: nat)
    requires i < |hs|
    ensures Found(e, f, hs[..i + 1]) == (if IsHit(e, f, hs[i]) then [Hit(f, hs[i])] else []) + Found(e, f, hs[..i])
  {
    assert hs[..i + 1][..i] == hs[..i];
  }
}
