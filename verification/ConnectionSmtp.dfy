/** The server accounts to send through, by connection: one stored list in which a connection id is followed by
    its server account. */
module ConnectionSmtp {
  import opened Messages

  // ----- the list as a map -----

  function AsMap(list: seq<string>): map<string, string> {
    if |list| < 2 then map[] else AsMap(list[2..])[list[0] := list[1]]
  }

  /** Connection ids and accounts alternate, and no connection occurs twice. */
  predicate WellFormed(list: seq<string>) {
    list == [] || (|list| >= 2 && list[0] !in AsMap(list[2..]) && WellFormed(list[2..]))
  }

  /** The node g_slist_find_custom finds, be it a connection's or an account's. */
  function FirstIndex(list: seq<string>, id: string): (i: nat)
    ensures i <= |list| && (i < |list| ==> list[i] == id)
    ensures forall k :: 0 <= k < i ==> list[k] != id
  {
    if list == [] || list[0] == id then 0 else 1 + FirstIndex(list[1..], id)
  }

  /** The list without the node found and the one after it. */
  function Cut(list: seq<string>, i: nat): seq<string>
    requires i <= |list|
  {
    if i + 2 <= |list| then list[..i] + list[i + 2..] else list[..i]
  }

  function Removed(list: seq<string>, id: string): seq<string> {
    Cut(list, FirstIndex(list, id))
  }

  function WithPair(list: seq<string>, id: string, account: string): seq<string> {
    Removed(list, id) + [id, account]
  }

  function Lookup(m: map<string, string>, id: string): Option<string> {
    if id in m then Some(m[id]) else None
  }

  /** The stored list, MODEST_CONF_CONNECTION_SPECIFIC_SMTP_LIST; reads and writes are taken to succeed. */
  class SmtpList {
    var list: seq<string>

    constructor ()
      ensures list == []
    {
      list := [];
    }

    /** modest_account_mgr_remove_connection_specific_smtp. */
    method Remove(connectionId: string) returns (result: bool)
      modifies this
      ensures list == Removed(old(list), connectionId)
      ensures result == (old(list) != [])
    {
      if list == [] {
        return false;
      }
      var i := 0;
      while i < |list| && list[i] != connectionId
        invariant i <= |list| && forall k :: 0 <= k < i ==> list[k] != connectionId
      {
        i := i + 1;
      }
      if i < |list| {
        var next := if i + 1 < |list| then i + 2 else i + 1;
        list := list[..i] + list[next..];
      }
      return true;
    }

    /** modest_account_mgr_set_connection_specific_smtp. */
    method Set(connectionId: string, serverAccount: string) returns (result: bool)
      modifies this
      ensures result && list == WithPair(old(list), connectionId, serverAccount)
    {
      var _ := Remove(connectionId);
      list := list + [connectionId];
      list := list + [serverAccount];
      return true;
    }

    /** modest_account_mgr_get_connection_specific_smtp. */
    method Get(connectionId: string) returns (result: Option<string>)
      ensures result == Lookup(AsMap(list), connectionId)
    {
      var iter := 0;
      while iter < |list|
        invariant iter <= |list|
        invariant Lookup(AsMap(list), connectionId) == Lookup(AsMap(list[iter..]), connectionId)
      {
        assert iter + 2 <= |list| ==> list[iter..][2..] == list[iter + 2..];
        if list[iter] == connectionId {
          iter := iter + 1;
          if iter < |list| {
            return Some(list[iter]);
          }
        }
        iter := if iter < |list| then iter + 1 else iter;
        if iter < |list| {
          iter := iter + 1;
        }
      }
      return None;
    }
  }

  // ----- setting and removing one connection -----

  lemma PairInFront(a: string, b: string, rest: seq<string>)
    ensures AsMap([a, b] + rest) == AsMap(rest)[a := b]
    ensures WellFormed([a, b] + rest) <==> a !in AsMap(rest) && WellFormed(rest)
  {
    assert ([a, b] + rest)[2..] == rest;
  }

  lemma FirstPair(list: seq<string>) returns (a: string, b: string, rest: seq<string>)
    requires |list| >= 2
    ensures list == [a, b] + rest && rest == list[2..] && a == list[0] && b == list[1]
  {
    a, b, rest := list[0], list[1], list[2..];
  }

  lemma FirstIndexBehind(x: string, rest: seq<string>, id: string)
    ensures FirstIndex([x] + rest, id) == if x == id then 0 else 1 + FirstIndex(rest, id)
  {
    assert ([x] + rest)[1..] == rest;
  }

  lemma PiecesBehind(x: string, rest: seq<string>, i: nat)
    requires i <= |rest|
    ensures ([x] + rest)[..i + 1] == [x] + rest[..i] && ([x] + rest)[i + 1..] == rest[i..]
  {
  }

  lemma CutBehind(x: string, rest: seq<string>, i: nat)
    requires i <= |rest|
    ensures Cut([x] + rest, i + 1) == [x] + Cut(rest, i)
  {
    PiecesBehind(x, rest, i);
    if i + 2 <= |rest| {
      PiecesBehind(x, rest, i + 2);
    }
  }

  lemma RemovedBehind(x: string, rest: seq<string>, id: string)
    requires x != id
    ensures FirstIndex([x] + rest, id) == 1 + FirstIndex(rest, id)
    ensures Removed([x] + rest, id) == [x] + Removed(rest, id)
  {
    FirstIndexBehind(x, rest, id);
    CutBehind(x, rest, FirstIndex(rest, id));
  }

  lemma Pair(a: string, b: string, rest: seq<string>)
    ensures [a, b] + rest == [a] + ([b] + rest)
  {
  }

  /** Removing a connection behind the first pair. */
  lemma PairOff(a: string, b: string, rest: seq<string>, id: string)
    requires a != id && b != id
    ensures FirstIndex([a, b] + rest, id) == 2 + FirstIndex(rest, id)
    ensures Removed([a, b] + rest, id) == [a, b] + Removed(rest, id)
  {
    RemovedBehind(b, rest, id);
    RemovedBehind(a, [b] + rest, id);
    Pair(a, b, rest);
    Pair(a, b, Removed(rest, id));
  }

  /** The node found is a connection's, or there is none; or it is an account's, and the connection after it
      and that connection's account are called the same again. */
  predicate FindsConnection(list: seq<string>, id: string) {
    var i := FirstIndex(list, id);
    i % 2 == 0 || (i + 2 < |list| && list[i + 1] == id && list[i + 2] == id)
  }

  /** Whether removing a connection removes it from the map and changes nothing else. */
  predicate RemovesOne(list: seq<string>, id: string) {
    WellFormed(Removed(list, id)) && AsMap(Removed(list, id)) == AsMap(list) - {id}
  }

  lemma RemoveAtFront(id: string, b: string, rest: seq<string>)
    ensures FirstIndex([id, b] + rest, id) == 0 && Removed([id, b] + rest, id) == rest
  {
  }

  lemma AccountFound(a: string, id: string, rest: seq<string>)
    requires a != id
    ensures FirstIndex([a, id] + rest, id) == 1
    ensures Removed([a, id] + rest, id) == [a] + if rest == [] then [] else rest[1..]
  {
    assert [a, id] + rest == [a] + ([id] + rest);
    FirstIndexBehind(a, [id] + rest, id);
  }

  lemma SameMapExactly(m: map<string, string>, a: string, id: string, c: string, d: string)
    requires a != id && c != a && c !in m
    ensures m[a := d] == m[c := d][a := id] - {id} <==> c == id && d == id
  {
    if c != id {
      assert c in m[c := d][a := id] - {id} && c !in m[a := d];
    } else {
      assert (m[c := d][a := id] - {id})[a] == id && m[a := d][a] == d;
    }
  }

  lemma RemovesOneIf(list: seq<string>, id: string, m: map<string, string>, after: seq<string>)
    requires AsMap(list) == m && Removed(list, id) == after
    ensures RemovesOne(list, id) <==> WellFormed(after) && AsMap(after) == m - {id}
  {
  }

  lemma InnerAccountFound(a: string, id: string, c: string, d: string, tail: seq<string>)
    requires a != id
    ensures Removed([a, id] + ([c, d] + tail), id) == [a, d] + tail
  {
    AccountFound(a, id, [c, d] + tail);
    assert [a] + ([c, d] + tail)[1..] == [a, d] + tail;
  }

  lemma RemoveAtInnerAccount(a: string, id: string, c: string, d: string, tail: seq<string>)
    requires WellFormed([a, id] + ([c, d] + tail)) && a != id
    ensures RemovesOne([a, id] + ([c, d] + tail), id) <==> c == id && d == id
  {
    var m := AsMap(tail);
    PairInFront(a, id, [c, d] + tail);
    PairInFront(c, d, tail);
    PairInFront(a, d, tail);
    InnerAccountFound(a, id, c, d, tail);
    RemovesOneIf([a, id] + ([c, d] + tail), id, m[c := d][a := id], [a, d] + tail);
    SameMapExactly(m, a, id, c, d);
  }

  /** The node found is the account of the first connection. */
  lemma RemoveAtAccount(a: string, id: string, rest: seq<string>)
    requires WellFormed([a, id] + rest) && a != id
    ensures RemovesOne([a, id] + rest, id) <==> |rest| >= 2 && rest[0] == id && rest[1] == id
  {
    if |rest| < 2 {
      PairInFront(a, id, rest);
      AccountFound(a, id, rest);
      assert Removed([a, id] + rest, id) == [a];
    } else {
      var c, d, tail := FirstPair(rest);
      RemoveAtInnerAccount(a, id, c, d, tail);
    }
  }

  lemma RemoveBehind(a: string, b: string, rest: seq<string>, id: string)
    requires WellFormed([a, b] + rest) && a != id && b != id
    ensures RemovesOne([a, b] + rest, id) <==> RemovesOne(rest, id)
  {
    PairOff(a, b, rest, id);
    PairInFront(a, b, rest);
    PairInFront(a, b, Removed(rest, id));
    RemovesOneIf([a, b] + rest, id, AsMap(rest)[a := b], [a, b] + Removed(rest, id));
    RemoveBehindPair(a, b, AsMap(rest), AsMap(Removed(rest, id)), id);
  }

  lemma FindsBehind(a: string, b: string, rest: seq<string>, id: string)
    requires a != id && b != id
    ensures FindsConnection([a, b] + rest, id) <==> FindsConnection(rest, id)
  {
    PairOff(a, b, rest, id);
    var list, i := [a, b] + rest, FirstIndex(rest, id);
    if i + 2 < |rest| {
      assert list[i + 3] == rest[i + 1] && list[i + 4] == rest[i + 2];
    }
  }

  lemma FindsAtAccount(a: string, id: string, rest: seq<string>)
    requires a != id
    ensures FindsConnection([a, id] + rest, id) <==> |rest| >= 2 && rest[0] == id && rest[1] == id
  {
    AccountFound(a, id, rest);
  }

  /** Removing takes exactly the connection from the map if and only if the search finds a connection. */
  lemma {:induction false} RemoveIsRightExactly(list: seq<string>, id: string)
    requires WellFormed(list)
    ensures RemovesOne(list, id) <==> FindsConnection(list, id)
  {
    if list != [] {
      var a, b, rest := FirstPair(list);
      PairInFront(a, b, rest);
      if a == id {
        RemoveAtFront(id, b, rest);
      } else if b == id {
        FindsAtAccount(a, id, rest);
        RemoveAtAccount(a, id, rest);
      } else {
        RemoveIsRightExactly(rest, id);
        RemoveBehind(a, b, rest, id);
        FindsBehind(a, b, rest, id);
      }
    }
  }

  lemma RemoveBehindPair(a: string, b: string, m: map<string, string>, m': map<string, string>, id: string)
    requires a !in m && a != id
    ensures a !in m' && m'[a := b] == m[a := b] - {id} <==> m' == m - {id}
  {
    if a !in m' && m'[a := b] == m[a := b] - {id} {
      forall k ensures k in m' <==> k in m && k != id {
        assert k in m'[a := b] <==> k in m[a := b] - {id};
      }
      forall k | k in m' ensures m'[k] == m[k] {
        assert m'[a := b][k] == (m[a := b] - {id})[k];
      }
    }
  }

  lemma {:induction false} AppendPair(list: seq<string>, id: string, account: string)
    requires WellFormed(list) && id !in AsMap(list)
    ensures WellFormed(list + [id, account]) && AsMap(list + [id, account]) == AsMap(list)[id := account]
  {
    if list == [] {
      assert list + [id, account] == [id, account] + [];
      PairInFront(id, account, []);
    } else {
      AppendPair(list[2..], id, account);
      assert list + [id, account] == [list[0], list[1]] + (list[2..] + [id, account]);
      PairInFront(list[0], list[1], list[2..] + [id, account]);
    }
  }

  lemma {:induction false} EvenLength(list: seq<string>)
    requires WellFormed(list)
    ensures |list| % 2 == 0
  {
    if list != [] {
      EvenLength(list[2..]);
    }
  }

  lemma {:induction false} AppendedPair(list: seq<string>, id: string, account: string)
    requires WellFormed(list + [id, account])
    ensures WellFormed(list) && id !in AsMap(list)
  {
    EvenLength(list + [id, account]);
    if |list| >= 2 {
      var a, b, rest := FirstPair(list);
      assert list + [id, account] == [a, b] + (rest + [id, account]);
      PairInFront(a, b, rest + [id, account]);
      AppendedPair(rest, id, account);
      AppendPair(rest, id, account);
      PairInFront(a, b, rest);
    }
  }

  /** Whether setting a connection sets it in the map and changes nothing else. */
  predicate SetsOne(list: seq<string>, id: string, account: string) {
    WellFormed(WithPair(list, id, account)) && AsMap(WithPair(list, id, account)) == AsMap(list)[id := account]
  }

  lemma SameWithout(m: map<string, string>, m': map<string, string>, id: string, account: string)
    requires id !in m && m[id := account] == m'[id := account]
    ensures m == m' - {id}
  {
    forall k ensures k in m <==> k in m' && k != id {
      assert k in m[id := account] <==> k in m'[id := account];
    }
    forall k | k in m ensures m[k] == m'[k] {
      assert m[id := account][k] == m'[id := account][k];
    }
  }

  /** Setting a connection is right in exactly the same lists as removing it. */
  lemma SetIsRightExactly(list: seq<string>, id: string, account: string)
    requires WellFormed(list)
    ensures SetsOne(list, id, account) <==> FindsConnection(list, id)
  {
    RemoveIsRightExactly(list, id);
    if RemovesOne(list, id) {
      AppendPair(Removed(list, id), id, account);
    }
    if SetsOne(list, id, account) {
      AppendedPair(Removed(list, id), id, account);
      AppendPair(Removed(list, id), id, account);
      SameWithout(AsMap(Removed(list, id)), AsMap(list), id, account);
    }
  }

  /** An account called like another connection breaks the list: removing that connection takes the account
      from its place, and the first connection is left with the account of the second. */
  lemma AccountTakenForConnection()
    ensures WithPair(WithPair([], "home", "work"), "office", "b") == ["home", "work", "office", "b"]
    ensures AsMap(Removed(["home", "work", "office", "b"], "work")) == map["home" := "b"]
  {
    assert FirstIndex(["home", "work"], "office") == 2 by {
      FirstIndexBehind("home", ["work"], "office");
    }
    AccountFound("home", "work", ["office", "b"]);
    assert ["home", "work", "office", "b"] == ["home", "work"] + ["office", "b"];
    assert ["home"] + ["office", "b"][1..] == ["home", "b"] + [];
    PairInFront("home", "b", []);
  }

  // ----- any number of changes -----

  datatype Change = Set(id: string, account: string) | Remove(id: string)

  function Changed(changes: seq<Change>): seq<string> {
    if changes == [] then []
    else
      var before := Changed(changes[..|changes| - 1]);
      match changes[|changes| - 1]
      case Set(id, account) => WithPair(before, id, account)
      case Remove(id) => Removed(before, id)
  }

  function Meaning(changes: seq<Change>): map<string, string> {
    if changes == [] then map[]
    else
      var before := Meaning(changes[..|changes| - 1]);
      match changes[|changes| - 1]
      case Set(id, account) => before[id := account]
      case Remove(id) => before - {id}
  }

  predicate AccountsOutside(list: seq<string>, ids: set<string>) {
    |list| < 2 || (list[1] !in ids && AccountsOutside(list[2..], ids))
  }

  lemma OutsideInFront(a: string, b: string, rest: seq<string>, ids: set<string>)
    ensures AccountsOutside([a, b] + rest, ids) <==> b !in ids && AccountsOutside(rest, ids)
  {
    assert ([a, b] + rest)[2..] == rest;
  }

  lemma FoundBehind(a: string, b: string, rest: seq<string>, ids: set<string>, id: string)
    requires a != id && b != id && b !in ids
    requires FindsConnection(rest, id) && AccountsOutside(Removed(rest, id), ids)
    ensures FindsConnection([a, b] + rest, id) && AccountsOutside(Removed([a, b] + rest, id), ids)
  {
    FindsBehind(a, b, rest, id);
    PairOff(a, b, rest, id);
    OutsideInFront(a, b, Removed(rest, id), ids);
  }

  lemma {:induction false} FoundAmongConnections(list: seq<string>, ids: set<string>, id: string)
    requires WellFormed(list) && AccountsOutside(list, ids) && id in ids
    ensures FindsConnection(list, id) && AccountsOutside(Removed(list, id), ids)
  {
    if list != [] {
      var a, b, rest := FirstPair(list);
      PairInFront(a, b, rest);
      OutsideInFront(a, b, rest, ids);
      if a == id {
        RemoveAtFront(id, b, rest);
      } else {
        FoundAmongConnections(rest, ids, id);
        FoundBehind(a, b, rest, ids, id);
      }
    }
  }

  lemma {:induction false} AppendOutside(list: seq<string>, ids: set<string>, id: string, account: string)
    requires WellFormed(list) && AccountsOutside(list, ids) && account !in ids
    ensures AccountsOutside(list + [id, account], ids)
  {
    if list == [] {
      assert list + [id, account] == [id, account];
    } else {
      AppendOutside(list[2..], ids, id, account);
      assert (list + [id, account])[2..] == list[2..] + [id, account];
    }
  }

  /** As long as no server account is called like a connection, the list is a finite map: however connections
      are set and removed, it is well formed and means what those changes do to a map. */
  lemma {:induction false} ListRefinesMap(changes: seq<Change>, ids: set<string>)
    requires forall c :: c in changes ==> c.id in ids && (c.Set? ==> c.account !in ids)
    ensures var list := Changed(changes);
            WellFormed(list) && AsMap(list) == Meaning(changes) && AccountsOutside(list, ids)
  {
    if changes != [] {
      var front, last := changes[..|changes| - 1], changes[|changes| - 1];
      assert last in changes && forall c :: c in front ==> c in changes;
      ListRefinesMap(front, ids);
      FoundAmongConnections(Changed(front), ids, last.id);
      RemoveIsRightExactly(Changed(front), last.id);
      if last.Set? {
        SetIsRightExactly(Changed(front), last.id, last.account);
        AppendOutside(Removed(Changed(front), last.id), ids, last.id, last.account);
      }
    }
  }
}
