/** Assembling the flat folder listing into nested trees. The recursion follows a map, not a
    structure, so that it ends is a theorem: from a root, every step down goes one level
    deeper, and no level can exceed the number of folders. */
module FolderTree {
  import opened Common
  import opened FolderForest

  datatype Tree = Node(folder: Folder, children: seq<Tree>)

  /** The folders with this parent, in listing order. */
  function Kids(flat: seq<Folder>, parent: Option<Id>): seq<Folder> {
    if flat == [] then []
    else
      var before := Kids(flat[..|flat| - 1], parent);
      if flat[|flat| - 1].parent == parent then before + [flat[|flat| - 1]] else before
  }

  ghost function ParentsOf(flat: seq<Folder>): Parents
    requires UniqueIds(flat)
  {
    map i | 0 <= i < |flat| :: flat[i].id := flat[i].parent
  }

  lemma ParentsOfListing(flat: seq<Folder>)
    requires UniqueIds(flat)
    ensures Lists(flat, ParentsOf(flat))
  {
  }

  /** `x` lies `d` levels below a root of the listing. */
  predicate Level(p: Parents, x: Id, d: nat) {
    Up(p, x, d).Some? && Up(p, x, d).value in p && p[Up(p, x, d).value].None?
  }

  ghost predicate Rooted(p: Parents, x: Id) {
    exists d :: Level(p, x, d)
  }

  lemma LevelUnique(p: Parents, x: Id, d: nat, e: nat)
    requires Level(p, x, d) && Level(p, x, e)
    ensures d == e
  {
    if d < e {
      UpEnds(p, x, d + 1, e);
    } else if e < d {
      UpEnds(p, x, e + 1, d);
    }
  }

  lemma LevelBounded(p: Parents, x: Id, d: nat)
    requires Level(p, x, d)
    ensures d < |p|
  {
    var root := Up(p, x, d).value;
    var k := ReachedWithinCap(p, x, root);
    LevelUnique(p, x, d, k);
  }

  lemma LevelOfChild(p: Parents, x: Id, k: Id, d: nat)
    requires Level(p, x, d) && k in p && p[k] == Some(x)
    ensures Level(p, k, d + 1)
  {
    assert Up(p, k, 0) == Some(k);
    UpAdd(p, k, 1, x, d);
  }

  lemma {:induction false} KidsAreKids(flat: seq<Folder>, parent: Option<Id>, k: Folder)
    ensures k in Kids(flat, parent) <==> k in flat && k.parent == parent
  {
    if flat != [] {
      KidsAreKids(flat[..|flat| - 1], parent, k);
      assert flat == flat[..|flat| - 1] + [flat[|flat| - 1]];
    }
  }

  // ---- The construction --------------------------------------------------------------

  type Children = map<Id, seq<Folder>>

  function ChildrenOf(children: Children, x: Id): seq<Folder> {
    if x in children then children[x] else []
  }

  ghost predicate Groups(children: Children, flat: seq<Folder>) {
    forall x :: ChildrenOf(children, x) == Kids(flat, Some(x))
  }

  ghost predicate AtLevel(flat: seq<Folder>, p: Parents, kids: seq<Folder>, d: nat) {
    forall k :: k in kids ==> k in flat && Level(p, k.id, d)
  }

  lemma ChildrenAtLevel(flat: seq<Folder>, p: Parents, f: Folder, d: nat)
    requires Lists(flat, p) && f in flat && Level(p, f.id, d)
    ensures d < |p| && AtLevel(flat, p, Kids(flat, Some(f.id)), d + 1)
  {
    LevelBounded(p, f.id, d);
    forall k | k in Kids(flat, Some(f.id)) ensures k in flat && Level(p, k.id, d + 1) {
      KidsAreKids(flat, Some(f.id), k);
      LevelOfChild(p, f.id, k.id, d);
    }
  }

  function Attach(children: Children, f: Folder, ghost flat: seq<Folder>, ghost p: Parents, ghost d: nat): Tree
    requires Lists(flat, p) && Groups(children, flat) && AtLevel(flat, p, [f], d)
    decreases |p| - d, 0
  {
    assert f in [f];
    ChildrenAtLevel(flat, p, f, d);
    Node(f, AttachAll(children, ChildrenOf(children, f.id), flat, p, d + 1))
  }

  function AttachAll(children: Children, kids: seq<Folder>, ghost flat: seq<Folder>, ghost p: Parents, ghost d: nat): seq<Tree>
    requires Lists(flat, p) && Groups(children, flat) && AtLevel(flat, p, kids, d)
    decreases |p| - d, |kids| + 1
  {
    if kids == [] then []
    else
      assert kids[0] in kids;
      assert forall k :: k in [kids[0]] ==> k == kids[0];
      [Attach(children, kids[0], flat, p, d)] + AttachAll(children, kids[1..], flat, p, d)
  }

  lemma RootsAtLevel(flat: seq<Folder>, p: Parents)
    requires Lists(flat, p)
    ensures AtLevel(flat, p, Kids(flat, None), 0)
  {
    forall k | k in Kids(flat, None) ensures k in flat && Level(p, k.id, 0) {
      KidsAreKids(flat, None, k);
    }
  }

  /** The grouping pass over the listing. */
  method GroupByParent(flat: seq<Folder>) returns (children: Children, roots: seq<Folder>)
    ensures roots == Kids(flat, None) && Groups(children, flat)
    ensures GroupedInOrder(flat, None, roots) && forall x :: GroupedInOrder(flat, Some(x), ChildrenOf(children, x))
  {
    children, roots := map[], [];
    for i := 0 to |flat|
      invariant roots == Kids(flat[..i], None)
      invariant Groups(children, flat[..i])
    {
      var f := flat[i];
      assert flat[..i + 1][..i] == flat[..i];
      if f.parent.None? {
        roots := roots + [f];
      } else {
        var x := f.parent.value;
        children := children[x := ChildrenOf(children, x) + [f]];
      }
    }
    assert flat[..|flat|] == flat;
    KidsGrouped(flat, None);
    forall x ensures GroupedInOrder(flat, Some(x), ChildrenOf(children, x)) {
      KidsGrouped(flat, Some(x));
    }
  }

  /** The loop over the roots. */
  method AttachRoots(children: Children, roots: seq<Folder>, ghost flat: seq<Folder>, ghost p: Parents)
    returns (out: seq<Tree>)
    requires Lists(flat, p) && Groups(children, flat) && AtLevel(flat, p, roots, 0)
    ensures out == AttachAll(children, roots, flat, p, 0)
  {
    out := [];
    for i := 0 to |roots|
      invariant AtLevel(flat, p, roots[..i], 0) && out == AttachAll(children, roots[..i], flat, p, 0)
    {
      assert roots[..i + 1] == roots[..i] + [roots[i]];
      AttachAllAppend(children, roots[..i], roots[i], flat, p, 0);
      out := out + [Attach(children, roots[i], flat, p, 0)];
    }
    assert roots[..|roots|] == roots;
  }

  /** The nested tree of a flat listing: group by parent in one pass, then attach from the roots.
      Roots and the children of every node are exactly the folders of the listing with that
      parent, in listing order; and the output holds each folder whose chain reaches a root of
      the listing exactly once and no other folder. */
  method BuildTree(flat: seq<Folder>) returns (out: seq<Tree>)
    requires UniqueIds(flat)
    ensures WellPlaced(flat, out, None)
    ensures forall y :: OccursAll(out, y) == if Rooted(ParentsOf(flat), y) then 1 else 0
  {
    var children, roots := GroupByParent(flat);
    ghost var p := ParentsOf(flat);
    ParentsOfListing(flat);
    RootsAtLevel(flat, p);
    out := AttachRoots(children, roots, flat, p);
    AttachMirrors(children, roots, flat, p, 0);
    MirrorsPlaced(flat, out, None);
    forall y ensures OccursAll(out, y) == if Rooted(p, y) then 1 else 0 {
      RootedOnce(flat, p, out, y);
    }
  }

  lemma {:induction false} AttachAllAppend(children: Children, kids: seq<Folder>, k: Folder, flat: seq<Folder>, p: Parents, d: nat)
    requires Lists(flat, p) && Groups(children, flat) && AtLevel(flat, p, kids + [k], d)
    ensures AtLevel(flat, p, kids, d) && AtLevel(flat, p, [k], d)
    ensures AttachAll(children, kids + [k], flat, p, d) ==
            AttachAll(children, kids, flat, p, d) + [Attach(children, k, flat, p, d)]
    decreases |kids|
  {
    assert forall x :: x in kids ==> x in kids + [k];
    assert k in kids + [k];
    if kids == [] {
      assert kids + [k] == [k];
    } else {
      assert (kids + [k])[1..] == kids[1..] + [k];
      AttachAllAppend(children, kids[1..], k, flat, p, d);
    }
  }

  // ---- Every folder under its own parent, in listing order ---------------------------

  /** The trees are these folders, in this order, and below each stand exactly the folders
      that name it as their parent, in listing order. */
  predicate Mirrors(flat: seq<Folder>, trees: seq<Tree>, folders: seq<Folder>)
    decreases trees
  {
    if trees == [] then folders == []
    else
      && folders != [] && trees[0].folder == folders[0]
      && Mirrors(flat, trees[0].children, Kids(flat, Some(folders[0].id)))
      && Mirrors(flat, trees[1..], folders[1..])
  }

  lemma AttachAllFirst(children: Children, kids: seq<Folder>, flat: seq<Folder>, p: Parents, d: nat)
    requires Lists(flat, p) && Groups(children, flat) && AtLevel(flat, p, kids, d) && kids != []
    ensures AtLevel(flat, p, Kids(flat, Some(kids[0].id)), d + 1) && AtLevel(flat, p, kids[1..], d)
    ensures AttachAll(children, kids, flat, p, d) ==
            [Node(kids[0], AttachAll(children, Kids(flat, Some(kids[0].id)), flat, p, d + 1))]
            + AttachAll(children, kids[1..], flat, p, d)
  {
    ChildrenAtLevel(flat, p, kids[0], d);
  }

  lemma {:induction false} AttachMirrors(children: Children, kids: seq<Folder>, flat: seq<Folder>, p: Parents, d: nat)
    requires Lists(flat, p) && Groups(children, flat) && AtLevel(flat, p, kids, d)
    ensures Mirrors(flat, AttachAll(children, kids, flat, p, d), kids)
    decreases |p| - d, |kids|
  {
    if kids != [] {
      ChildrenAtLevel(flat, p, kids[0], d);
      var below := Kids(flat, Some(kids[0].id));
      AttachMirrors(children, below, flat, p, d + 1);
      AttachMirrors(children, kids[1..], flat, p, d);
      AttachAllFirst(children, kids, flat, p, d);
    }
  }

  /** `f` stands before `g` in the listing. */
  ghost predicate Before(flat: seq<Folder>, f: Folder, g: Folder) {
    exists a, b :: 0 <= a < b < |flat| && flat[a] == f && flat[b] == g
  }

  ghost predicate HasNode(trees: seq<Tree>, f: Folder) {
    exists i :: 0 <= i < |trees| && trees[i].folder == f
  }

  /** The siblings are exactly the folders of the listing with this parent, each before the next
      as in the listing, and so on below each of them. */
  ghost predicate WellPlaced(flat: seq<Folder>, trees: seq<Tree>, parent: Option<Id>)
    decreases trees
  {
    && (forall i :: 0 <= i < |trees| ==> trees[i].folder in flat && trees[i].folder.parent == parent)
    && (forall f :: f in flat && f.parent == parent ==> HasNode(trees, f))
    && (forall i, j :: 0 <= i < j < |trees| ==> Before(flat, trees[i].folder, trees[j].folder))
    && (forall i :: 0 <= i < |trees| ==> WellPlaced(flat, trees[i].children, Some(trees[i].folder.id)))
  }

  /** One pass in listing order leaves the folders of one parent in listing order. */
  lemma {:induction false} KidsInOrder(flat: seq<Folder>, parent: Option<Id>, i: nat, j: nat)
    requires i < j < |Kids(flat, parent)|
    ensures Before(flat, Kids(flat, parent)[i], Kids(flat, parent)[j])
    decreases |flat|
  {
    var n := |flat| - 1;
    var before := Kids(flat[..n], parent);
    if j < |before| {
      KidsInOrder(flat[..n], parent, i, j);
      var a, b :| 0 <= a < b < n && flat[..n][a] == before[i] && flat[..n][b] == before[j];
      assert flat[a] == before[i] && flat[b] == before[j];
    } else {
      KidsAreKids(flat[..n], parent, before[i]);
      var a :| 0 <= a < n && flat[..n][a] == before[i];
      assert flat[a] == before[i] && flat[n] == Kids(flat, parent)[j];
    }
  }

  /** These are the folders of the listing with that parent, and stand as they do there. */
  ghost predicate GroupedInOrder(flat: seq<Folder>, parent: Option<Id>, kids: seq<Folder>) {
    && (forall f :: f in kids <==> f in flat && f.parent == parent)
    && (forall i, j :: 0 <= i < j < |kids| ==> Before(flat, kids[i], kids[j]))
  }

  lemma KidsGrouped(flat: seq<Folder>, parent: Option<Id>)
    ensures GroupedInOrder(flat, parent, Kids(flat, parent))
  {
    var kids := Kids(flat, parent);
    forall f ensures f in kids <==> f in flat && f.parent == parent {
      KidsAreKids(flat, parent, f);
    }
    forall i, j | 0 <= i < j < |kids| ensures Before(flat, kids[i], kids[j]) {
      KidsInOrder(flat, parent, i, j);
    }
  }

  lemma {:induction false} MirrorsAt(flat: seq<Folder>, trees: seq<Tree>, folders: seq<Folder>, i: nat)
    requires Mirrors(flat, trees, folders) && i < |trees|
    ensures i < |folders| && trees[i].folder == folders[i]
    ensures Mirrors(flat, trees[i].children, Kids(flat, Some(folders[i].id)))
    decreases i
  {
    if i > 0 {
      MirrorsAt(flat, trees[1..], folders[1..], i - 1);
    }
  }

  lemma {:induction false} MirrorsLength(flat: seq<Folder>, trees: seq<Tree>, folders: seq<Folder>)
    requires Mirrors(flat, trees, folders)
    ensures |trees| == |folders|
    decreases |trees|
  {
    if trees != [] {
      MirrorsLength(flat, trees[1..], folders[1..]);
    }
  }

  lemma {:induction false} MirrorsPlaced(flat: seq<Folder>, trees: seq<Tree>, parent: Option<Id>)
    requires Mirrors(flat, trees, Kids(flat, parent))
    ensures WellPlaced(flat, trees, parent)
    decreases trees
  {
    var kids := Kids(flat, parent);
    MirrorsLength(flat, trees, kids);
    forall i | 0 <= i < |trees|
      ensures trees[i].folder == kids[i] && kids[i] in flat && kids[i].parent == parent
      ensures WellPlaced(flat, trees[i].children, Some(kids[i].id))
    {
      MirrorsAt(flat, trees, kids, i);
      KidsAreKids(flat, parent, kids[i]);
      MirrorsPlaced(flat, trees[i].children, Some(kids[i].id));
    }
    forall f | f in flat && f.parent == parent ensures HasNode(trees, f) {
      KidsAreKids(flat, parent, f);
      var i :| 0 <= i < |kids| && kids[i] == f;
      assert trees[i].folder == f;
    }
    forall i, j | 0 <= i < j < |trees| ensures Before(flat, trees[i].folder, trees[j].folder) {
      KidsInOrder(flat, parent, i, j);
    }
  }

  // ---- Every rooted folder exactly once ----------------------------------------------

  function Occurs(t: Tree, y: Id): nat {
    (if t.folder.id == y then 1 else 0) + OccursAll(t.children, y)
  }

  function OccursAll(ts: seq<Tree>, y: Id): nat {
    if ts == [] then 0 else Occurs(ts[0], y) + OccursAll(ts[1..], y)
  }

  /** How many of these folders are `y`'s ancestor (or `y`) at level `d`. */
  function AncestorsAmong(p: Parents, y: Id, e: nat, kids: seq<Folder>, d: nat): nat {
    if kids == [] then 0
    else (if d <= e && Up(p, y, e - d) == Some(kids[0].id) then 1 else 0) + AncestorsAmong(p, y, e, kids[1..], d)
  }

  /** Of the folders with one parent, at most the one that is `y`'s ancestor counts, and it
      is there exactly when `y`'s ancestor one level up is that parent. */
  lemma {:induction false} OneAncestorAmongKids(flat: seq<Folder>, p: Parents, parent: Option<Id>, y: Id, e: nat, d: nat)
    requires UniqueIds(flat)
    ensures AncestorsAmong(p, y, e, Kids(flat, parent), d) ==
            if d <= e && exists i :: 0 <= i < |flat| && flat[i].parent == parent && Up(p, y, e - d) == Some(flat[i].id)
            then 1 else 0
    decreases |flat|
  {
    if flat != [] {
      var n := |flat| - 1;
      OneAncestorAmongKids(flat[..n], p, parent, y, e, d);
      if flat[n].parent == parent {
        AncestorsAppend(p, y, e, Kids(flat[..n], parent), flat[n], d);
      }
    }
  }

  lemma {:induction false} AncestorsAppend(p: Parents, y: Id, e: nat, kids: seq<Folder>, k: Folder, d: nat)
    ensures AncestorsAmong(p, y, e, kids + [k], d) ==
            AncestorsAmong(p, y, e, kids, d) + if d <= e && Up(p, y, e - d) == Some(k.id) then 1 else 0
    decreases |kids|
  {
    if kids == [] {
      assert kids + [k] == [k];
    } else {
      assert (kids + [k])[1..] == kids[1..] + [k];
      AncestorsAppend(p, y, e, kids[1..], k, d);
    }
  }

  /** Stepping from a folder to its children keeps the count of ancestors. */
  lemma AncestorBelow(flat: seq<Folder>, p: Parents, f: Folder, d: nat, y: Id, e: nat)
    requires Lists(flat, p) && f in flat && Level(p, f.id, d) && Level(p, y, e)
    ensures (if f.id == y then 1 else 0) + AncestorsAmong(p, y, e, Kids(flat, Some(f.id)), d + 1) ==
            if d <= e && Up(p, y, e - d) == Some(f.id) then 1 else 0
  {
    OneAncestorAmongKids(flat, p, Some(f.id), y, e, d + 1);
    if f.id == y {
      LevelUnique(p, y, d, e);
    } else if d + 1 <= e && Up(p, y, e - d) == Some(f.id) {
      var z := Up(p, y, e - d - 1).value;
      assert z in p && p[z] == Some(f.id);
      assert HasRow(flat, z);
    }
  }

  /** A folder at level `e` occurs below a list of level-`d` folders once for each of them
      that is its ancestor. */
  lemma {:induction false} OccursPerAncestor(
      flat: seq<Folder>, p: Parents, trees: seq<Tree>, folders: seq<Folder>, d: nat, y: Id, e: nat)
    requires Lists(flat, p) && Mirrors(flat, trees, folders) && AtLevel(flat, p, folders, d)
    requires Level(p, y, e)
    ensures OccursAll(trees, y) == AncestorsAmong(p, y, e, folders, d)
    decreases trees
  {
    if trees != [] {
      ChildrenAtLevel(flat, p, folders[0], d);
      OccursPerAncestor(flat, p, trees[0].children, Kids(flat, Some(folders[0].id)), d + 1, y, e);
      OccursPerAncestor(flat, p, trees[1..], folders[1..], d, y, e);
      AncestorBelow(flat, p, folders[0], d, y, e);
    }
  }

  /** What is not below a root of the listing is nowhere in the output. */
  lemma {:induction false} UnrootedAbsent(
      flat: seq<Folder>, p: Parents, trees: seq<Tree>, folders: seq<Folder>, d: nat, y: Id)
    requires Lists(flat, p) && Mirrors(flat, trees, folders) && AtLevel(flat, p, folders, d)
    requires !Rooted(p, y)
    ensures OccursAll(trees, y) == 0
    decreases trees
  {
    if trees != [] {
      ChildrenAtLevel(flat, p, folders[0], d);
      UnrootedAbsent(flat, p, trees[0].children, Kids(flat, Some(folders[0].id)), d + 1, y);
      UnrootedAbsent(flat, p, trees[1..], folders[1..], d, y);
    }
  }

  /** Even when the listing holds cycles or dangling parents, each folder whose chain reaches
      a root of the listing is placed exactly once, and no other folder is placed at all. */
  lemma RootedOnce(flat: seq<Folder>, p: Parents, trees: seq<Tree>, y: Id)
    requires Lists(flat, p) && Mirrors(flat, trees, Kids(flat, None))
    ensures OccursAll(trees, y) == if Rooted(p, y) then 1 else 0
    ensures Rooted(p, y) ==> y in p
  {
    RootsAtLevel(flat, p);
    if Rooted(p, y) {
      var e :| Level(p, y, e);
      OccursPerAncestor(flat, p, trees, Kids(flat, None), 0, y, e);
      OneAncestorAmongKids(flat, p, None, y, e, 0);
      assert HasRow(flat, Up(p, y, e).value);
      if y !in p && e > 0 {
        UpEnds(p, y, 1, e);
      }
    } else {
      UnrootedAbsent(flat, p, trees, Kids(flat, None), 0, y);
    }
  }
}
