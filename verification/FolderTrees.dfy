/** The folder stores of a mail account: every folder may hold further folders, and a listing call
    asks one store for its direct children. */
module FolderTrees {

  datatype FolderKind = Inbox | Outbox | Other

  datatype Folder = Folder(id: string, kind: FolderKind, isStore: bool, children: seq<Folder>)

  /** A folder together with everything below it. */
  function Tree(f: Folder): multiset<Folder>
    decreases f
  {
    multiset{f} + Forest(f.children)
  }

  function Forest(fs: seq<Folder>): multiset<Folder>
    decreases fs
  {
    if fs == [] then multiset{} else Tree(fs[0]) + Forest(fs[1..])
  }

  lemma {:induction false} ForestConcat(a: seq<Folder>, b: seq<Folder>)
    ensures Forest(a + b) == Forest(a) + Forest(b)
  {
    if a == [] {
      assert a + b == b;
    } else {
      assert (a + b)[1..] == a[1..] + b;
      ForestConcat(a[1..], b);
    }
  }
}
