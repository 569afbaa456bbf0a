/** The folder table as a parent map: the cycle check that guards a move, and the rows that
    creating, moving and deleting folders leave behind. Ids are opaque. */
module FolderForest {
  import opened Common

  type Id = nat

  type Parents = map<Id, Option<Id>>

  /** The k-th ancestor of `x`, itself for k = 0; None once the chain has ended. */
  function Up(p: Parents, x: Id, k: nat): Option<Id> {
    if k == 0 then Some(x)
    else
      match Up(p, x, k - 1)
      case None => None
      case Some(y) => if y in p then p[y] else None
  }

  /** `y` is `x` or one of its ancestors. */
  ghost predicate Reaches(p: Parents, x: Id, y: Id) {
    exists k :: Up(p, x, k) == Some(y)
  }

  /** The chain of `x` ends, so it is on no cycle. */
  ghost predicate Grounded(p: Parents, x: Id) {
    exists k :: Up(p, x, k) == None
  }

  ghost predicate NoDangling(p: Parents) {
    forall x :: x in p && p[x].Some? ==> p[x].value in p
  }

  ghost predicate Forest(p: Parents) {
    NoDangling(p) && forall x :: x in p ==> Grounded(p, x)
  }

  lemma {:induction false} UpAdd(p: Parents, x: Id, i: nat, y: Id, j: nat)
    requires Up(p, x, i) == Some(y)
    ensures Up(p, x, i + j) == Up(p, y, j)
    decreases j
  {
    if j > 0 {
      UpAdd(p, x, i, y, j - 1);
    }
  }

  lemma {:induction false} UpEnds(p: Parents, x: Id, i: nat, j: nat)
    requires i <= j && Up(p, x, i) == None
    ensures Up(p, x, j) == None
    decreases j
  {
    if i < j {
      UpEnds(p, x, i, j - 1);
    }
  }

  /** Two maps that differ only at `id` agree on chains until they meet `id`. */
  lemma {:induction false} UpFrame(p: Parents, q: Parents, id: Id, x: Id, k: nat)
    requires forall y :: y != id ==> (y in p <==> y in q) && (y in p ==> p[y] == q[y])
    requires forall j :: 0 <= j < k ==> Up(p, x, j) != Some(id)
    ensures Up(q, x, k) == Up(p, x, k)
    decreases k
  {
    if k > 0 {
      UpFrame(p, q, id, x, k - 1);
    }
  }

  // ---- The step cap is enough --------------------------------------------------------

  /** The first `k` ancestors of `x`. */
  ghost function Chain(p: Parents, x: Id, k: nat): set<Id> {
    set j | 0 <= j < k && Up(p, x, j).Some? :: Up(p, x, j).value
  }

  /** A shortest chain from `x` to `y` has no repetition. */
  ghost predicate Shortest(p: Parents, x: Id, y: Id, k: nat) {
    Up(p, x, k) == Some(y) && forall j :: 0 <= j < k ==> Up(p, x, j) != Some(y)
  }

  lemma {:induction false} ShortestExists(p: Parents, x: Id, y: Id, k: nat) returns (m: nat)
    requires Up(p, x, k) == Some(y)
    ensures m <= k && Shortest(p, x, y, m)
    decreases k
  {
    if j: nat :| j < k && Up(p, x, j) == Some(y) {
      m := ShortestExists(p, x, y, j);
    } else {
      m := k;
    }
  }

  lemma ShortestHasNoRepeat(p: Parents, x: Id, y: Id, k: nat, i: nat, j: nat)
    requires Shortest(p, x, y, k) && i < j <= k
    ensures Up(p, x, i).Some? && Up(p, x, i) != Up(p, x, j)
  {
    if Up(p, x, i) == None {
      UpEnds(p, x, i, k);
    } else if Up(p, x, i) == Up(p, x, j) {
      var z := Up(p, x, i).value;
      UpAdd(p, x, j, z, k - j);
      UpAdd(p, x, i, z, k - j);
    }
  }

  lemma {:induction false} ChainSize(p: Parents, x: Id, y: Id, k: nat, n: nat)
    requires Shortest(p, x, y, k) && n <= k + 1
    ensures |Chain(p, x, n)| == n
    decreases n
  {
    if n == 0 {
      assert Chain(p, x, 0) == {};
    } else {
      ChainSize(p, x, y, k, n - 1);
      if n - 1 < k {
        ShortestHasNoRepeat(p, x, y, k, n - 1, k);
      }
      var last := Up(p, x, n - 1).value;
      assert last !in Chain(p, x, n - 1) by {
        forall j | 0 <= j < n - 1 ensures Up(p, x, j) != Some(last) {
          ShortestHasNoRepeat(p, x, y, k, j, n - 1);
        }
      }
      assert Chain(p, x, n) == Chain(p, x, n - 1) + {last};
    }
  }

  /** Pigeonhole: in any table, cyclic or not, a folder of the table that is reachable at all
      is reached within as many nodes as the table has rows. */
  lemma ReachedWithinCap(p: Parents, x: Id, y: Id) returns (k: nat)
    requires Reaches(p, x, y) && y in p
    ensures k < |p| && Up(p, x, k) == Some(y)
  {
    var far :| Up(p, x, far) == Some(y);
    k := ShortestExists(p, x, y, far);
    ChainSize(p, x, y, k, k + 1);
    forall j | 0 <= j <= k ensures Up(p, x, j).Some? ==> Up(p, x, j).value in p {
      if j < k {
        ShortestHasNoRepeat(p, x, y, k, j, j + 1);
        if j + 1 < k {
          ShortestHasNoRepeat(p, x, y, k, j + 1, k);
        }
      }
    }
    assert Chain(p, x, k + 1) <= p.Keys;
    SubsetSize(Chain(p, x, k + 1), p.Keys);
  }

  // ---- The cycle check ---------------------------------------------------------------

  datatype Folder = Folder(id: Id, parent: Option<Id>, name: string)

  datatype Verdict = Allowed | OwnParent | Cycle | ListFailed

  predicate UniqueIds(folders: seq<Folder>) {
    forall i, j :: 0 <= i < j < |folders| ==> folders[i].id != folders[j].id
  }

  ghost predicate HasRow(folders: seq<Folder>, x: Id) {
    exists i :: 0 <= i < |folders| && folders[i].id == x
  }

  /** The listing says what the table says. */
  ghost predicate Lists(folders: seq<Folder>, p: Parents) {
    && UniqueIds(folders)
    && (forall x :: x in p ==> HasRow(folders, x))
    && (forall i :: 0 <= i < |folders| ==> folders[i].id in p && p[folders[i].id] == folders[i].parent)
  }

  /** The lookup map the check builds from the listing. */
  method ParentMap(folders: seq<Folder>, ghost p: Parents) returns (parentOf: Parents)
    requires Lists(folders, p)
    ensures parentOf == p
  {
    parentOf := map[];
    for i := 0 to |folders|
      invariant forall j :: 0 <= j < i ==> folders[j].id in parentOf
      invariant forall x :: x in parentOf ==> x in p && parentOf[x] == p[x]
    {
      parentOf := parentOf[folders[i].id := folders[i].parent];
    }
    forall x | x in p ensures x in parentOf {
      assert HasRow(folders, x);
    }
  }

  /** The walk over ancestors with its cap of one step per folder. For a folder that is in
      the table the verdict is exact, whatever cycles or dangling parents the table holds. */
  method CheckMove(listing: Option<seq<Folder>>, ghost p: Parents, id: Id, newParent: Id) returns (verdict: Verdict)
    requires listing.Some? ==> Lists(listing.value, p)
    ensures verdict == OwnParent <==> newParent == id
    ensures verdict == ListFailed <==> newParent != id && listing.None?
    ensures verdict == Cycle ==> Reaches(p, newParent, id)
    ensures listing.Some? && id in p ==> (verdict == Allowed <==> !Reaches(p, newParent, id))
  {
    if newParent == id {
      assert Up(p, newParent, 0) == Some(id);
      return OwnParent;
    }
    if listing.None? {
      return ListFailed;
    }
    var parentOf := ParentMap(listing.value, p);
    var cur := newParent;
    for step := 0 to |parentOf|
      invariant Up(p, newParent, step) == Some(cur)
      invariant forall j :: 0 <= j < step ==> Up(p, newParent, j) != Some(id)
    {
      if cur == id {
        return Cycle;
      }
      if cur !in parentOf || parentOf[cur].None? {
        NotBeyondEnd(p, newParent, id, step);
        return Allowed;
      }
      cur := parentOf[cur].value;
    }
    if id in p {
      CapExhausted(p, newParent, id);
    }
    return Allowed;
  }

  lemma NotBeyondEnd(p: Parents, x: Id, id: Id, step: nat)
    requires Up(p, x, step + 1) == None
    requires forall j :: 0 <= j <= step ==> Up(p, x, j) != Some(id)
    ensures !Reaches(p, x, id)
  {
    forall k: nat ensures Up(p, x, k) != Some(id) {
      if k > step {
        UpEnds(p, x, step + 1, k);
      }
    }
  }

  lemma CapExhausted(p: Parents, x: Id, id: Id)
    requires id in p && forall j :: 0 <= j < |p| ==> Up(p, x, j) != Some(id)
    ensures !Reaches(p, x, id)
  {
    if Reaches(p, x, id) {
      var k := ReachedWithinCap(p, x, id);
    }
  }

  // ---- The table under create, move and cascading delete -----------------------------

  datatype Request =
    | Create(id: Id, parent: Option<Id>)
    | Move(id: Id, parent: Option<Id>)
    | Remove(id: Id)

  /** The folders a delete takes with it: the folder and everything below it. */
  ghost function Subtree(p: Parents, id: Id): set<Id> {
    set x | x in p && Reaches(p, x, id)
  }

  /** What one request leaves, by the foreign key, the cycle rule and the cascade. */
  ghost function After(p: Parents, request: Request): Parents {
    match request
    case Create(id, parent) =>
      if id in p || (parent.Some? && parent.value !in p) then p else p[id := parent]
    case Move(id, parent) =>
      if id !in p || (parent.Some? && (parent.value !in p || Reaches(p, parent.value, id))) then p
      else p[id := parent]
    case Remove(id) => if id !in p then p else p - Subtree(p, id)
  }

  lemma GroundedFrom(p: Parents, x: Id, i: nat, y: Id)
    requires Up(p, x, i) == Some(y) && Grounded(p, y)
    ensures Grounded(p, x)
  {
    var k :| Up(p, y, k) == None;
    UpAdd(p, x, i, y, k);
  }

  /** A chain that never meets the changed folder is as long as it was. */
  lemma UntouchedChain(p: Parents, q: Parents, id: Id, x: Id)
    requires forall y :: y != id ==> (y in p <==> y in q) && (y in p ==> p[y] == q[y])
    requires Grounded(p, x) && !Reaches(p, x, id)
    ensures Grounded(q, x)
  {
    var k :| Up(p, x, k) == None;
    UpFrame(p, q, id, x, k);
  }

  /** Any folder's chain in the new table is its old one up to `id`, then that of `id`. */
  lemma RepointedChain(p: Parents, q: Parents, id: Id, x: Id)
    requires forall y :: y != id ==> (y in p <==> y in q) && (y in p ==> p[y] == q[y])
    requires Grounded(p, x) && Grounded(q, id)
    ensures Grounded(q, x)
  {
    if Reaches(p, x, id) {
      var far :| Up(p, x, far) == Some(id);
      var k := ShortestExists(p, x, id, far);
      UpFrame(p, q, id, x, k);
      GroundedFrom(q, x, k, id);
    } else {
      UntouchedChain(p, q, id, x);
    }
  }

  lemma RepointKeepsForest(p: Parents, id: Id, parent: Option<Id>)
    requires Forest(p)
    requires parent.Some? ==> parent.value in p && !Reaches(p, parent.value, id)
    ensures Forest(p[id := parent])
  {
    var q := p[id := parent];
    assert Grounded(q, id) by {
      if parent.None? {
        assert Up(q, id, 0) == Some(id);
        assert Up(q, id, 1) == None;
      } else {
        UntouchedChain(p, q, id, parent.value);
        assert Up(q, id, 0) == Some(id);
        GroundedFrom(q, id, 1, parent.value);
      }
    }
    forall x | x in q ensures Grounded(q, x) {
      if x != id {
        RepointedChain(p, q, id, x);
      }
    }
  }

  lemma {:induction false} ChainStaysInTable(p: Parents, x: Id, k: nat)
    requires NoDangling(p) && x in p && Up(p, x, k).Some?
    ensures Up(p, x, k).value in p
    decreases k
  {
    if k > 0 {
      ChainStaysInTable(p, x, k - 1);
    }
  }

  lemma {:induction false} SurvivingChain(p: Parents, id: Id, x: Id, k: nat)
    requires NoDangling(p) && x in p && !Reaches(p, x, id)
    ensures Up(p - Subtree(p, id), x, k) == Up(p, x, k)
    decreases k
  {
    if k > 0 {
      SurvivingChain(p, id, x, k - 1);
      if Up(p, x, k - 1).Some? {
        var y := Up(p, x, k - 1).value;
        ChainStaysInTable(p, x, k - 1);
        if Reaches(p, y, id) {
          var j :| Up(p, y, j) == Some(id);
          UpAdd(p, x, k - 1, y, j);
        }
      }
    }
  }

  lemma RemoveKeepsForest(p: Parents, id: Id)
    requires Forest(p) && id in p
    ensures Forest(p - Subtree(p, id))
  {
    var q := p - Subtree(p, id);
    forall x | x in q ensures Grounded(q, x) && (q[x].Some? ==> q[x].value in q) {
      assert !Reaches(p, x, id);
      var k :| Up(p, x, k) == None;
      SurvivingChain(p, id, x, k);
      if p[x].Some? {
        var y := p[x].value;
        assert Up(p, x, 0) == Some(x);
        if Reaches(p, y, id) {
          var j :| Up(p, y, j) == Some(id);
          UpAdd(p, x, 1, y, j);
        }
      }
    }
  }

  /** Every request, accepted or not, leaves a forest: acyclic, with no dangling parent. */
  lemma RequestKeepsForest(p: Parents, request: Request)
    requires Forest(p)
    ensures Forest(After(p, request))
  {
    match request
    case Create(id, parent) =>
      if After(p, request) != p {
        if parent.Some? && Reaches(p, parent.value, id) {
          var k :| Up(p, parent.value, k) == Some(id);
          ChainStaysInTable(p, parent.value, k);
        }
        RepointKeepsForest(p, id, parent);
      }
    case Move(id, parent) =>
      if After(p, request) != p {
        RepointKeepsForest(p, id, parent);
      }
    case Remove(id) =>
      if id in p {
        RemoveKeepsForest(p, id);
      }
  }

  ghost function AfterAll(p: Parents, requests: seq<Request>): Parents
    decreases |requests|
  {
    if requests == [] then p else AfterAll(After(p, requests[0]), requests[1..])
  }

  /** Every serial run of creates, moves and cascading deletes keeps the folders a forest. */
  lemma {:induction false} RunKeepsForest(p: Parents, requests: seq<Request>)
    requires Forest(p)
    ensures Forest(AfterAll(p, requests))
    decreases |requests|
  {
    if requests != [] {
      RequestKeepsForest(p, requests[0]);
      RunKeepsForest(After(p, requests[0]), requests[1..]);
    }
  }

  datatype Reply = Done | Invalid | NotFound | Failed

  /** The service over the folder table. */
  class FolderService {
    var rows: map<Id, Folder>

    ghost function Table(): Parents
      reads this
    {
      map x | x in rows :: rows[x].parent
    }

    ghost predicate Valid()
      reads this
    {
      (forall x :: x in rows ==> rows[x].id == x) && Forest(Table())
    }

    constructor ()
      ensures Valid() && rows == map[]
    {
      rows := map[];
    }

    method Put(id: Id, folder: Folder)
      modifies this
      ensures rows == old(rows)[id := folder] && Table() == old(Table())[id := folder.parent]
    {
      rows := rows[id := folder];
    }

    /** `id` is the one the database mints, so it is not in the table. `fails` says that the
        statement itself fails. */
    method Create(id: Id, name: string, parent: Option<Id>, fails: bool) returns (reply: Reply)
      requires Valid() && id !in rows
      modifies this
      ensures Valid()
      ensures reply == Failed <==> fails
      ensures Table() == if fails then old(Table()) else After(old(Table()), Request.Create(id, parent))
      ensures reply == Done <==> !fails && (parent.Some? ==> parent.value in old(rows))
      ensures rows == if reply == Done then old(rows)[id := Folder(id, parent, name)] else old(rows)
    {
      if fails {
        return Failed;
      }
      RequestKeepsForest(Table(), Request.Create(id, parent));
      if parent.Some? && parent.value !in rows {
        return NotFound;
      }
      Put(id, Folder(id, parent, name));
      reply := Done;
    }

    /** `listing` is what List returns: the whole table, or nothing when it fails; `fails` says
        that the update itself fails. */
    method Update(listing: Option<seq<Folder>>, id: Id, name: string, parent: Option<Id>, fails: bool)
      returns (reply: Reply)
      requires Valid() && (listing.Some? ==> Lists(listing.value, Table()))
      modifies this
      ensures Valid()
      ensures !fails && (parent.None? || listing.Some?) ==> Table() == After(old(Table()), Request.Move(id, parent))
      ensures reply != Done ==> rows == old(rows)
      ensures reply == Done ==> rows == old(rows)[id := Folder(id, parent, name)]
      ensures reply == Done <==>
                && !fails && id in old(rows)
                && (parent.Some? ==> && parent.value in old(rows) && listing.Some?
                                     && !Reaches(old(Table()), parent.value, id))
    {
      RequestKeepsForest(Table(), Request.Move(id, parent));
      if parent.Some? {
        var verdict := CheckMove(listing, Table(), id, parent.value);
        if verdict == ListFailed {
          return Failed;
        }
        if verdict != Allowed {
          assert verdict == OwnParent ==> Up(Table(), parent.value, 0) == Some(id);
          return Invalid;
        }
      }
      if fails {
        return Failed;
      }
      if id !in rows || (parent.Some? && parent.value !in rows) {
        return NotFound;
      }
      Put(id, Folder(id, parent, name));
      reply := Done;
    }

    /** The cascade: a row goes once its parent is going, until none is left to add. */
    method Delete(id: Id, fails: bool) returns (reply: Reply)
      requires Valid()
      modifies this
      ensures Valid() && Table() == if fails then old(Table()) else After(old(Table()), Remove(id))
      ensures reply == if fails then Failed else if id in old(rows) then Done else NotFound
      ensures forall x :: x in rows ==> x in old(rows) && rows[x] == old(rows)[x]
      ensures reply == Done ==> id !in rows
      ensures forall x :: x in old(rows) ==> (x !in rows <==> reply == Done && Reaches(old(Table()), x, id))
    {
      if fails {
        return Failed;
      }
      if id !in rows {
        return NotFound;
      }
      ghost var p := Table();
      RequestKeepsForest(p, Remove(id));
      var doomed := {id};
      assert Up(p, id, 0) == Some(id);
      while exists x :: x in rows && x !in doomed && rows[x].parent.Some? && rows[x].parent.value in doomed
        invariant rows == old(rows) && id in doomed && doomed <= rows.Keys
        invariant forall x :: x in doomed ==> Reaches(p, x, id)
        decreases rows.Keys - doomed
      {
        var x :| x in rows && x !in doomed && rows[x].parent.Some? && rows[x].parent.value in doomed;
        ReachesViaParent(p, x, rows[x].parent.value, id);
        doomed := doomed + {x};
      }
      forall x | x in p && Reaches(p, x, id) ensures x in doomed {
        var k :| Up(p, x, k) == Some(id);
        ClosedUnderChildren(p, doomed, x, id, k);
      }
      assert doomed == Subtree(p, id);
      rows := rows - doomed;
      assert Table() == p - Subtree(p, id);
      reply := Done;
    }
  }

  lemma ReachesViaParent(p: Parents, x: Id, y: Id, id: Id)
    requires x in p && p[x] == Some(y) && Reaches(p, y, id)
    ensures Reaches(p, x, id)
  {
    var k :| Up(p, y, k) == Some(id);
    assert Up(p, x, 0) == Some(x);
    UpAdd(p, x, 1, y, k);
  }

  /** A set closed under "parent is in the set" holds all that reaches its member. */
  lemma {:induction false} ClosedUnderChildren(p: Parents, doomed: set<Id>, x: Id, id: Id, k: nat)
    requires NoDangling(p) && x in p && Up(p, x, k) == Some(id) && id in doomed
    requires forall y :: y in p && p[y].Some? && p[y].value in doomed ==> y in doomed
    ensures x in doomed
    decreases k
  {
    if k > 0 {
      assert Up(p, x, 0) == Some(x);
      if Up(p, x, 1) == None {
        UpEnds(p, x, 1, k);
      } else {
        var y := p[x].value;
        UpAdd(p, x, 1, y, k - 1);
        ClosedUnderChildren(p, doomed, y, id, k - 1);
      }
    }
  }
}
