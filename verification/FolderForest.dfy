/** Building the folder forest from parent identifiers (`build_folder_tree`,
    api/BL/dashboard.py:64-73).  Nodes are shared objects: a folder's own node is appended both
    to its parent's list of children and read from the map of all nodes. */
module FolderForest {
  import opened Prelude

  /** 0 stands for every falsy identifier, such as a missing parent. */
  type Id = int

  datatype Folder = Folder(id: Id, parent: Id, name: string)

  // ----- what is linked to what -----------------------------------------------------------

  function Ids(folders: seq<Folder>): (out: set<Id>)
    ensures forall x :: x in out <==> exists f :: f in folders && f.id == x
  {
    set f | f in folders :: f.id
  }

  /** The folder hangs below another one that exists. */
  predicate HasParent(folders: seq<Folder>, f: Folder) {
    f.parent != 0 && f.parent in Ids(folders)
  }

  /** Identifiers of the folders below `p` among the first ones, in input order. */
  function ChildIds(folders: seq<Folder>, n: nat, p: Id): seq<Id>
    requires n <= |folders|
  {
    if n == 0 then []
    else
      var f := folders[n - 1];
      ChildIds(folders, n - 1, p) + if HasParent(folders, f) && f.parent == p then [f.id] else []
  }

  /** Identifiers of the folders without an existing parent, in input order. */
  function RootIds(folders: seq<Folder>, n: nat): seq<Id>
    requires n <= |folders|
  {
    if n == 0 then []
    else
      var f := folders[n - 1];
      RootIds(folders, n - 1) + if HasParent(folders, f) then [] else [f.id]
  }

  /** The last folder with an identifier: a later one overwrites it in the map. */
  function LastWith(folders: seq<Folder>, id: Id): Option<Folder> {
    if folders == [] then None
    else if folders[|folders| - 1].id == id then Some(folders[|folders| - 1])
    else LastWith(folders[..|folders| - 1], id)
  }

  /** The children of a folder are, in input order, those of the first folders that name it as their
      parent, if it exists. */
  lemma {:induction false} ChildrenInOrder(folders: seq<Folder>, n: nat, p: Id) returns (at: seq<nat>)
    requires n <= |folders|
    ensures |at| == |ChildIds(folders, n, p)|
    ensures forall k | 0 <= k < |at| :: at[k] < n && ChildIds(folders, n, p)[k] == folders[at[k]].id
    ensures forall k, l :: 0 <= k < l < |at| ==> at[k] < at[l]
    ensures forall i: nat :: i in at <==>
      i < n && folders[i].parent == p && p != 0 && exists f :: f in folders && f.id == p
  {
    at := [];
    if n > 0 {
      at := ChildrenInOrder(folders, n - 1, p);
      if HasParent(folders, folders[n - 1]) && folders[n - 1].parent == p {
        at := at + [n - 1];
      }
    }
  }

  /** The roots are, in input order, the folders without a parent and those whose parent is missing. */
  lemma {:induction false} RootsInOrder(folders: seq<Folder>, n: nat) returns (at: seq<nat>)
    requires n <= |folders|
    ensures |at| == |RootIds(folders, n)|
    ensures forall k | 0 <= k < |at| :: at[k] < n && RootIds(folders, n)[k] == folders[at[k]].id
    ensures forall k, l :: 0 <= k < l < |at| ==> at[k] < at[l]
    ensures forall i: nat :: i in at <==>
      i < n && (folders[i].parent == 0 || forall f | f in folders :: f.id != folders[i].parent)
  {
    at := [];
    if n > 0 {
      at := RootsInOrder(folders, n - 1);
      if !HasParent(folders, folders[n - 1]) {
        at := at + [n - 1];
      }
    }
  }

  /** Of several folders with one identifier the last one counts. */
  lemma {:induction false} LastCounts(folders: seq<Folder>, id: Id, i: nat)
    requires i < |folders| && folders[i].id == id
    ensures LastWith(folders, id) == Some(folders[i]) || exists j :: i < j < |folders| && folders[j].id == id
  {
    if i < |folders| - 1 && folders[|folders| - 1].id != id {
      LastCounts(folders[..|folders| - 1], id, i);
    }
  }

  // ----- the heap structure ---------------------------------------------------------------

  class Node {
    const folder: Folder
    var children: seq<Node>

    constructor (folder: Folder)
      ensures this.folder == folder && children == []
    {
      this.folder := folder;
      children := [];
    }
  }

  type NodeMap = map<Id, Node>

  ghost predicate AllIn(nodes: NodeMap, ids: seq<Id>) {
    forall k | 0 <= k < |ids| :: ids[k] in nodes
  }

  /** The nodes with the given identifiers. */
  ghost function Named(nodes: NodeMap, ids: seq<Id>): (out: seq<Node>)
    requires AllIn(nodes, ids)
    ensures |out| == |ids|
  {
    seq(|ids|, k requires 0 <= k < |ids| => nodes[ids[k]])
  }

  /** One node per identifier, different ones for different identifiers, with the folder's data. */
  ghost predicate Mapped(folders: seq<Folder>, nodes: NodeMap) {
    && nodes.Keys == Ids(folders)
    && (forall a, b | a in nodes && b in nodes && a != b :: nodes[a] != nodes[b])
    && forall a | a in nodes :: LastWith(folders, a) == Some(nodes[a].folder)
  }

  lemma {:induction false} LinkedIdsExist(folders: seq<Folder>, n: nat, nodes: NodeMap, p: Id)
    requires n <= |folders| && nodes.Keys == Ids(folders)
    ensures AllIn(nodes, ChildIds(folders, n, p)) && AllIn(nodes, RootIds(folders, n))
  {
    if n > 0 {
      LinkedIdsExist(folders, n - 1, nodes, p);
      assert folders[n - 1] in folders;
    }
  }

  /** Each existing node lists exactly its children among the first `n` folders. */
  ghost predicate Linked(folders: seq<Folder>, n: nat, nodes: NodeMap)
    requires n <= |folders|
    reads nodes.Values
  {
    forall p | p in nodes :: AllIn(nodes, ChildIds(folders, n, p))
      && nodes[p].children == Named(nodes, ChildIds(folders, n, p))
  }

  lemma MappedNext(folders: seq<Folder>, i: nat, nodes: NodeMap, node: Node)
    requires i < |folders| && Mapped(folders[..i], nodes) && node.folder == folders[i]
    requires forall p | p in nodes :: nodes[p] != node
    ensures Mapped(folders[..i + 1], nodes[folders[i].id := node])
  {
    hide Ids;
    assert folders[..i + 1][..i] == folders[..i];
    IdsNext(folders, i);
  }

  lemma IdsNext(folders: seq<Folder>, i: nat)
    requires i < |folders|
    ensures Ids(folders[..i + 1]) == Ids(folders[..i]) + {folders[i].id}
  {
    var before, after := folders[..i], folders[..i + 1];
    assert after == before + [folders[i]];
    forall x ensures x in Ids(after) <==> x in Ids(before) + {folders[i].id} {
      if x == folders[i].id {
        assert folders[i] in after;
      }
    }
  }

  method MapFolders(folders: seq<Folder>) returns (nodes: NodeMap)
    ensures Mapped(folders, nodes) && Linked(folders, 0, nodes)
    ensures forall p | p in nodes :: fresh(nodes[p])
  {
    hide Mapped;
    nodes := map[];
    assert Mapped(folders[..0], nodes) by {
      EmptyMapped(folders[..0]);
    }
    for i := 0 to |folders|
      invariant Mapped(folders[..i], nodes)
      invariant forall p | p in nodes :: fresh(nodes[p]) && nodes[p].children == []
    {
      var node := new Node(folders[i]);
      MappedNext(folders, i, nodes, node);
      nodes := nodes[folders[i].id := node];
    }
    assert folders[..|folders|] == folders;
  }

  lemma EmptyMapped(folders: seq<Folder>)
    requires folders == []
    ensures Mapped(folders, map[])
  {
  }

  lemma NamedSnoc(nodes: NodeMap, ids: seq<Id>, x: Id)
    requires AllIn(nodes, ids) && x in nodes
    ensures AllIn(nodes, ids + [x]) && Named(nodes, ids + [x]) == Named(nodes, ids) + [nodes[x]]
  {
  }

  lemma FoldersAreMapped(folders: seq<Folder>, nodes: NodeMap, i: nat)
    requires Mapped(folders, nodes) && i < |folders|
    ensures folders[i].id in nodes && (HasParent(folders, folders[i]) ==> folders[i].parent in nodes)
  {
    assert folders[i] in folders;
  }

  /** Folder `i` is appended to its parent's children. */
  method LinkToParent(folders: seq<Folder>, i: nat, nodes: NodeMap)
    requires i < |folders| && Mapped(folders, nodes) && Linked(folders, i, nodes) && HasParent(folders, folders[i])
    requires folders[i].id in nodes && folders[i].parent in nodes
    modifies nodes[folders[i].parent]
    ensures Linked(folders, i + 1, nodes)
  {
    hide Mapped, Named, AllIn, Ids, HasParent, LastWith;
    var f := folders[i];
    var parent := nodes[f.parent];
    NodesDiffer(folders, nodes);
    forall p | p in nodes ensures AllIn(nodes, ChildIds(folders, i, p)) {
      LinkedIdsOfMapped(folders, nodes, i, p);
    }
    parent.children := parent.children + [nodes[f.id]];
    forall p | p in nodes
      ensures AllIn(nodes, ChildIds(folders, i + 1, p))
      ensures nodes[p].children == Named(nodes, ChildIds(folders, i + 1, p))
    {
      NamedSnoc(nodes, ChildIds(folders, i, p), f.id);
      assert ChildIds(folders, i, p) + [] == ChildIds(folders, i, p);
    }
  }

  lemma NodesDiffer(folders: seq<Folder>, nodes: NodeMap)
    requires Mapped(folders, nodes)
    ensures forall a, b | a in nodes && b in nodes && a != b :: nodes[a] != nodes[b]
  {
  }

  lemma LinkedIdsOfMapped(folders: seq<Folder>, nodes: NodeMap, n: nat, p: Id)
    requires Mapped(folders, nodes) && n <= |folders|
    ensures AllIn(nodes, ChildIds(folders, n, p)) && AllIn(nodes, RootIds(folders, n))
  {
    LinkedIdsExist(folders, n, nodes, p);
  }

  /** A folder without an existing parent changes no list of children. */
  lemma RootLinksNothing(folders: seq<Folder>, i: nat, nodes: NodeMap)
    requires i < |folders| && Linked(folders, i, nodes) && !HasParent(folders, folders[i])
    ensures Linked(folders, i + 1, nodes)
  {
    hide HasParent, Named, AllIn;
    forall p | p in nodes ensures ChildIds(folders, i + 1, p) == ChildIds(folders, i, p) {
    }
  }

  /** The nodes are linked as the parent identifiers say; no other node is created or lost. */
  method BuildFolderTree(folders: seq<Folder>) returns (roots: seq<Node>, nodes: NodeMap)
    ensures Mapped(folders, nodes) && forall p | p in nodes :: fresh(nodes[p])
    ensures Linked(folders, |folders|, nodes)
    ensures AllIn(nodes, RootIds(folders, |folders|)) && roots == Named(nodes, RootIds(folders, |folders|))
  {
    hide Linked, Named, AllIn, LastWith, ChildIds, Ids;
    nodes := MapFolders(folders);
    MappedKeys(folders, nodes);
    roots := [];
    NothingNamed(nodes);
    for i := 0 to |folders|
      invariant Mapped(folders, nodes) && forall p | p in nodes :: fresh(nodes[p])
      invariant Linked(folders, i, nodes)
      invariant AllIn(nodes, RootIds(folders, i)) && roots == Named(nodes, RootIds(folders, i))
    {
      var f := folders[i];
      FoldersAreMapped(folders, nodes, i);
      assert RootIds(folders, i) + [] == RootIds(folders, i);
      if f.parent != 0 && f.parent in nodes {
        LinkToParent(folders, i, nodes);
      } else {
        RootLinksNothing(folders, i, nodes);
        NamedSnoc(nodes, RootIds(folders, i), f.id);
        roots := roots + [nodes[f.id]];
      }
    }
  }

  lemma MappedKeys(folders: seq<Folder>, nodes: NodeMap)
    requires Mapped(folders, nodes)
    ensures nodes.Keys == Ids(folders)
  {
  }

  lemma NothingNamed(nodes: NodeMap)
    ensures AllIn(nodes, []) && Named(nodes, []) == []
  {
  }

  // ----- what the forest contains ---------------------------------------------------------

  ghost predicate DistinctIds(folders: seq<Folder>) {
    forall i, j :: 0 <= i < j < |folders| ==> folders[i].id != folders[j].id
  }

  /** The existing parent of a folder. */
  function ParentOf(folders: seq<Folder>, id: Id): Option<Id> {
    match LastWith(folders, id)
    case Some(f) => if HasParent(folders, f) then Some(f.parent) else None
    case None => None
  }

  /** Following existing parents from `id` leads to a root after exactly `k` steps. */
  predicate AtDepth(folders: seq<Folder>, id: Id, k: nat)
    decreases k
  {
    id in Ids(folders) &&
    match ParentOf(folders, id)
    case None => k == 0
    case Some(p) => k > 0 && AtDepth(folders, p, k - 1)
  }

  predicate Names(f: Folder, parent: Folder) { f.parent != 0 && f.parent == parent.id }

  /** Folder after folder up to a root: each names the next one as its parent, and the last one has
      none that exists. */
  ghost predicate ParentChain(folders: seq<Folder>, chain: seq<Folder>) {
    && chain != [] && (forall f | f in chain :: f in folders)
    && (forall m, n :: 0 <= m && n == m + 1 < |chain| ==> Names(chain[m], chain[n]))
    && (chain[|chain| - 1].parent == 0 || forall f | f in folders :: f.id != chain[|chain| - 1].parent)
  }

  lemma FolderFound(folders: seq<Folder>, f: Folder)
    requires DistinctIds(folders) && f in folders
    ensures LastWith(folders, f.id) == Some(f) && f.id in Ids(folders)
  {
    var i :| 0 <= i < |folders| && folders[i] == f;
    LastWithIs(folders, i);
  }

  lemma ParentFolder(folders: seq<Folder>, f: Folder) returns (g: Folder)
    requires HasParent(folders, f)
    ensures g in folders && g.id == f.parent
  {
    g :| g in folders && g.id == f.parent;
  }

  lemma ChainExtends(folders: seq<Folder>, f: Folder, rest: seq<Folder>)
    requires ParentChain(folders, rest) && f in folders && f.parent != 0 && f.parent == rest[0].id
    ensures ParentChain(folders, [f] + rest)
  {
    var chain := [f] + rest;
    forall m, n | 0 <= m && n == m + 1 < |chain| ensures Names(chain[m], chain[n]) {
      assert chain[n] == rest[m] && (m > 0 ==> chain[m] == rest[m - 1]);
    }
    assert chain[|chain| - 1] == rest[|rest| - 1];
    assert forall g | g in chain :: g in folders;
  }

  lemma ChainShortens(folders: seq<Folder>, chain: seq<Folder>)
    requires ParentChain(folders, chain) && |chain| > 1
    ensures ParentChain(folders, chain[1..]) && chain[1] in folders && HasParent(folders, chain[0])
    ensures chain[0].parent == chain[1].id
  {
    assert chain[0] in chain && chain[1] in chain;
    var rest := chain[1..];
    forall m, n | 0 <= m && n == m + 1 < |rest| ensures Names(rest[m], rest[n]) {
      assert rest[m] == chain[n] && rest[n] == chain[n + 1];
    }
    assert rest[|rest| - 1] == chain[|chain| - 1];
  }

  /** One step of the depth. */
  lemma DepthStep(folders: seq<Folder>, f: Folder, k: nat)
    requires DistinctIds(folders) && f in folders
    ensures AtDepth(folders, f.id, k) <==>
      if HasParent(folders, f) then k > 0 && AtDepth(folders, f.parent, k - 1) else k == 0
  {
    FolderFound(folders, f);
    hide LastWith, HasParent, Ids, DistinctIds;
  }

  lemma {:induction false} ChainOfDepth(folders: seq<Folder>, f: Folder, k: nat) returns (chain: seq<Folder>)
    requires DistinctIds(folders) && f in folders && AtDepth(folders, f.id, k)
    ensures ParentChain(folders, chain) && chain[0] == f && |chain| == k + 1
    decreases k
  {
    DepthStep(folders, f, k);
    hide AtDepth, DistinctIds;
    chain := [f];
    if k == 0 {
      assert ParentChain(folders, [f]);
    } else {
      hide ParentChain;
      var g := ParentFolder(folders, f);
      var rest := ChainOfDepth(folders, g, k - 1);
      ChainExtends(folders, f, rest);
      chain := [f] + rest;
    }
  }

  lemma {:induction false} DepthOfChain(folders: seq<Folder>, chain: seq<Folder>)
    requires DistinctIds(folders) && ParentChain(folders, chain)
    ensures AtDepth(folders, chain[0].id, |chain| - 1)
    decreases |chain|
  {
    assert chain[0] in chain;
    DepthStep(folders, chain[0], |chain| - 1);
    if |chain| > 1 {
      ChainShortens(folders, chain);
      DepthOfChain(folders, chain[1..]);
    }
  }

  /** With distinct identifiers the depth is the number of links in a folder's chain of parents. */
  lemma DepthIsChain(folders: seq<Folder>, f: Folder, k: nat)
    requires DistinctIds(folders) && f in folders
    ensures AtDepth(folders, f.id, k) <==>
      exists chain :: ParentChain(folders, chain) && chain[0] == f && |chain| == k + 1
  {
    hide AtDepth, DistinctIds;
    if AtDepth(folders, f.id, k) {
      var chain := ChainOfDepth(folders, f, k);
    }
    if chain :| ParentChain(folders, chain) && chain[0] == f && |chain| == k + 1 {
      DepthOfChain(folders, chain);
    }
  }

  /** The children of the listed folders, list after list. */
  function Below(folders: seq<Folder>, ids: seq<Id>): seq<Id> {
    if ids == [] then [] else ChildIds(folders, |folders|, ids[0]) + Below(folders, ids[1..])
  }

  /** The identifiers `k` steps below the roots of the forest. */
  function Level(folders: seq<Folder>, k: nat): seq<Id> {
    if k == 0 then RootIds(folders, |folders|) else Below(folders, Level(folders, k - 1))
  }

  lemma {:induction false} LastWithIs(folders: seq<Folder>, i: nat)
    requires DistinctIds(folders) && i < |folders|
    ensures LastWith(folders, folders[i].id) == Some(folders[i])
  {
    if i < |folders| - 1 {
      LastWithIs(folders[..|folders| - 1], i);
    }
  }

  lemma {:induction false} LastWithFinds(folders: seq<Folder>, id: Id) returns (i: nat)
    requires id in Ids(folders)
    ensures i < |folders| && folders[i].id == id
  {
    var f :| f in folders && f.id == id;
    i :| 0 <= i < |folders| && folders[i] == f;
  }

  /** How often an identifier occurs. */
  function Count(ids: seq<Id>, x: Id): nat {
    if ids == [] then 0 else Count(ids[..|ids| - 1], x) + if ids[|ids| - 1] == x then 1 else 0
  }

  lemma CountSnoc(ids: seq<Id>, x: Id, y: Id)
    ensures Count(ids + [y], x) == Count(ids, x) + if x == y then 1 else 0
  {
    assert (ids + [y])[..|ids + [y]| - 1] == ids;
  }

  lemma {:induction false} CountConcat(a: seq<Id>, b: seq<Id>, x: Id)
    ensures Count(a + b, x) == Count(a, x) + Count(b, x)
  {
    if b == [] {
      assert a + b == a;
    } else {
      CountConcat(a, b[..|b| - 1], x);
      assert (a + b)[..|a + b| - 1] == a + b[..|b| - 1];
    }
  }

  /** A folder is linked below `p` once if `p` is its parent, never otherwise. */
  lemma {:induction false} CountChild(folders: seq<Folder>, n: nat, p: Id, i: nat)
    requires DistinctIds(folders) && n <= |folders| && i < |folders|
    ensures Count(ChildIds(folders, n, p), folders[i].id)
      == if i < n && HasParent(folders, folders[i]) && folders[i].parent == p then 1 else 0
  {
    hide HasParent, Count;
    if n == 0 {
      CountNone(folders[i].id);
    } else {
      CountChild(folders, n - 1, p, i);
      assert i != n - 1 ==> folders[i].id != folders[n - 1].id;
      CountSnoc(ChildIds(folders, n - 1, p), folders[i].id, folders[n - 1].id);
      assert ChildIds(folders, n - 1, p) + [] == ChildIds(folders, n - 1, p);
    }
  }

  lemma {:induction false} CountRoot(folders: seq<Folder>, n: nat, i: nat)
    requires DistinctIds(folders) && n <= |folders| && i < |folders|
    ensures Count(RootIds(folders, n), folders[i].id) == if i < n && !HasParent(folders, folders[i]) then 1 else 0
  {
    hide HasParent, Count;
    if n == 0 {
      CountNone(folders[i].id);
    } else {
      CountRoot(folders, n - 1, i);
      assert i != n - 1 ==> folders[i].id != folders[n - 1].id;
      CountSnoc(RootIds(folders, n - 1), folders[i].id, folders[n - 1].id);
      assert RootIds(folders, n - 1) + [] == RootIds(folders, n - 1);
    }
  }

  lemma {:induction false} CountBelow(folders: seq<Folder>, ids: seq<Id>, i: nat)
    requires DistinctIds(folders) && i < |folders|
    ensures Count(Below(folders, ids), folders[i].id)
      == if HasParent(folders, folders[i]) then Count(ids, folders[i].parent) else 0
  {
    hide HasParent, ChildIds, Count;
    if ids == [] {
      CountNone(folders[i].id);
      CountNone(folders[i].parent);
    } else {
      CountBelow(folders, ids[1..], i);
      CountChild(folders, |folders|, ids[0], i);
      CountConcat(ChildIds(folders, |folders|, ids[0]), Below(folders, ids[1..]), folders[i].id);
      assert ids == [ids[0]] + ids[1..];
      CountConcat([ids[0]], ids[1..], folders[i].parent);
      CountSnoc([], folders[i].parent, ids[0]);
      CountNone(folders[i].parent);
      assert [] + [ids[0]] == [ids[0]];
    }
  }

  lemma CountNone(x: Id)
    ensures Count([], x) == 0
  {
  }

  /** A folder stands in the forest at exactly the depth of its parent chain, once; a folder
      whose chain never reaches a root stands nowhere. */
  lemma {:induction false} EachFolderOnce(folders: seq<Folder>, k: nat, i: nat)
    requires DistinctIds(folders) && i < |folders|
    ensures Count(Level(folders, k), folders[i].id) == if AtDepth(folders, folders[i].id, k) then 1 else 0
    decreases k
  {
    hide HasParent, Ids, ChildIds, RootIds, Below;
    LastWithIs(folders, i);
    IdPresent(folders, i);
    if k == 0 {
      CountRoot(folders, |folders|, i);
    } else {
      CountBelow(folders, Level(folders, k - 1), i);
      if HasParent(folders, folders[i]) {
        ParentPresent(folders, i);
        var j := LastWithFinds(folders, folders[i].parent);
        EachFolderOnce(folders, k - 1, j);
      }
    }
  }

  lemma IdPresent(folders: seq<Folder>, i: nat)
    requires i < |folders|
    ensures folders[i].id in Ids(folders)
  {
    assert folders[i] in folders;
  }

  lemma ParentPresent(folders: seq<Folder>, i: nat)
    requires i < |folders| && HasParent(folders, folders[i])
    ensures folders[i].parent in Ids(folders)
  {
  }

  /** Nothing but folders stands in the forest. */
  lemma {:induction false} OnlyFolders(folders: seq<Folder>, k: nat)
    ensures forall x | x in Level(folders, k) :: x in Ids(folders)
    decreases k
  {
    if k == 0 {
      OnlyFolderIds(folders, |folders|, 0);
    } else {
      OnlyFoldersBelow(folders, Level(folders, k - 1));
    }
  }

  lemma {:induction false} OnlyFolderIds(folders: seq<Folder>, n: nat, p: Id)
    requires n <= |folders|
    ensures forall x | x in RootIds(folders, n) :: x in Ids(folders)
    ensures forall x | x in ChildIds(folders, n, p) :: x in Ids(folders)
  {
    if n > 0 {
      OnlyFolderIds(folders, n - 1, p);
      IdPresent(folders, n - 1);
    }
  }

  lemma {:induction false} OnlyFoldersBelow(folders: seq<Folder>, ids: seq<Id>)
    ensures forall x | x in Below(folders, ids) :: x in Ids(folders)
  {
    if ids != [] {
      OnlyFolderIds(folders, |folders|, ids[0]);
      OnlyFoldersBelow(folders, ids[1..]);
    }
  }

  /** No folder stands at two depths. */
  lemma {:induction false} OneDepth(folders: seq<Folder>, id: Id, k: nat, l: nat)
    requires AtDepth(folders, id, k) && AtDepth(folders, id, l)
    ensures k == l
    decreases k
  {
    if ParentOf(folders, id).Some? {
      OneDepth(folders, ParentOf(folders, id).value, k - 1, l - 1);
    }
  }

  /** Without cycles, which a rank that grows from parent to child witnesses, every folder is in
      the forest. */
  lemma {:induction false} AcyclicFoldersAllPresent(folders: seq<Folder>, rank: map<Id, nat>, id: Id) returns (k: nat)
    requires id in Ids(folders) && forall f | f in folders :: f.id in rank
    requires forall f | f in folders && HasParent(folders, f) :: rank[f.parent] < rank[f.id]
    ensures AtDepth(folders, id, k) && k <= rank[id]
    decreases rank[id]
  {
    LastWithIsFolder(folders, id);
    if ParentOf(folders, id).Some? {
      var j := AcyclicFoldersAllPresent(folders, rank, ParentOf(folders, id).value);
      k := j + 1;
    } else {
      k := 0;
    }
  }

  lemma {:induction false} LastWithIsFolder(folders: seq<Folder>, id: Id)
    requires id in Ids(folders)
    ensures LastWith(folders, id).Some? && LastWith(folders, id).value in folders
    ensures LastWith(folders, id).value.id == id
  {
    if folders[|folders| - 1].id != id {
      var front := folders[..|folders| - 1];
      var i := LastWithFinds(folders, id);
      assert front[i] == folders[i];
      IdPresent(front, i);
      LastWithIsFolder(front, id);
    }
  }

  // ----- the heap forest ------------------------------------------------------------------

  /** The children of the listed nodes, list after list. */
  ghost function AllChildren(ns: seq<Node>): seq<Node>
    reads ns
  {
    if ns == [] then [] else ns[0].children + AllChildren(ns[1..])
  }

  /** One step down in the heap is one step down among the identifiers: with the roots and the
      links of `BuildFolderTree`, level `k` of the node forest is `Level(folders, k)`. */
  lemma {:induction false} ChildrenAreBelow(folders: seq<Folder>, nodes: NodeMap, ids: seq<Id>)
    requires Mapped(folders, nodes) && Linked(folders, |folders|, nodes) && AllIn(nodes, ids)
    ensures AllIn(nodes, Below(folders, ids))
    ensures AllChildren(Named(nodes, ids)) == Named(nodes, Below(folders, ids))
  {
    hide ChildIds, Mapped, Linked, Named, AllIn;
    if ids == [] {
      NothingNamed(nodes);
    } else {
      NamedHead(nodes, ids);
      ChildrenAreBelow(folders, nodes, ids[1..]);
      LinkedAt(folders, nodes, ids[0]);
      NamedConcat(nodes, ChildIds(folders, |folders|, ids[0]), Below(folders, ids[1..]));
    }
  }

  lemma NamedHead(nodes: NodeMap, ids: seq<Id>)
    requires AllIn(nodes, ids) && ids != []
    ensures ids[0] in nodes && AllIn(nodes, ids[1..])
    ensures Named(nodes, ids) == [nodes[ids[0]]] + Named(nodes, ids[1..])
    ensures Named(nodes, ids)[1..] == Named(nodes, ids[1..])
  {
  }

  lemma LinkedAt(folders: seq<Folder>, nodes: NodeMap, p: Id)
    requires Linked(folders, |folders|, nodes) && p in nodes
    ensures AllIn(nodes, ChildIds(folders, |folders|, p))
    ensures nodes[p].children == Named(nodes, ChildIds(folders, |folders|, p))
  {
  }

  lemma NamedConcat(nodes: NodeMap, a: seq<Id>, b: seq<Id>)
    requires AllIn(nodes, a) && AllIn(nodes, b)
    ensures AllIn(nodes, a + b) && Named(nodes, a + b) == Named(nodes, a) + Named(nodes, b)
  {
  }

  /** The nodes `k` links below the given ones. */
  ghost function HeapLevel(roots: seq<Node>, k: nat): seq<Node>
    reads *
  {
    if k == 0 then roots else AllChildren(HeapLevel(roots, k - 1))
  }

  /** Level by level the nodes that `BuildFolderTree` links are those of the identifiers' levels. */
  lemma {:induction false} HeapLevels(folders: seq<Folder>, nodes: NodeMap, roots: seq<Node>, k: nat)
    requires Mapped(folders, nodes) && Linked(folders, |folders|, nodes)
    requires AllIn(nodes, RootIds(folders, |folders|)) && roots == Named(nodes, RootIds(folders, |folders|))
    ensures AllIn(nodes, Level(folders, k)) && HeapLevel(roots, k) == Named(nodes, Level(folders, k))
  {
    hide Mapped, Linked, Named, AllIn, AllChildren;
    if k > 0 {
      HeapLevels(folders, nodes, roots, k - 1);
      ChildrenAreBelow(folders, nodes, Level(folders, k - 1));
    }
  }

  lemma {:induction false} NamedCount(folders: seq<Folder>, nodes: NodeMap, ids: seq<Id>, x: Id)
    requires Mapped(folders, nodes) && AllIn(nodes, ids) && x in nodes
    ensures multiset(Named(nodes, ids))[nodes[x]] == Count(ids, x)
  {
    if ids != [] {
      var front := ids[..|ids| - 1];
      NamedCount(folders, nodes, front, x);
      assert Named(nodes, ids) == Named(nodes, front) + [nodes[ids[|ids| - 1]]];
    }
  }

  /** In the forest of nodes: with distinct identifiers a folder's node stands `k` links below the
      roots just once if its parent chain ends at a root after `k` steps, and otherwise not at all. */
  lemma EachNodeOnce(folders: seq<Folder>, nodes: NodeMap, roots: seq<Node>, k: nat, i: nat)
    requires DistinctIds(folders) && i < |folders| && Mapped(folders, nodes) && Linked(folders, |folders|, nodes)
    requires AllIn(nodes, RootIds(folders, |folders|)) && roots == Named(nodes, RootIds(folders, |folders|))
    ensures folders[i].id in nodes
    ensures multiset(HeapLevel(roots, k))[nodes[folders[i].id]] == if AtDepth(folders, folders[i].id, k) then 1 else 0
  {
    hide Linked, Named, AllIn, HeapLevel, AtDepth, Level, LastWith;
    assert folders[i] in folders;
    HeapLevels(folders, nodes, roots, k);
    NamedCount(folders, nodes, Level(folders, k), folders[i].id);
    EachFolderOnce(folders, k, i);
  }
}
