/** Nested user groups: who belongs to a group, and who may place a call (api/BL/task.py).
    The four tables are in-memory values; the nesting graph may be cyclic.  Identifiers are
    integers and 0 stands for every falsy identifier. */
module Groups {

  type Id = int

  datatype Tables = Tables(
    groups: set<Id>,           // user_group.id
    members: seq<(Id, Id)>,    // user_group_users: (user_id, user_group_id)
    profiles: seq<(Id, Id)>,   // user_group_profiles: (profile_id, user_group_id)
    nesting: seq<(Id, Id)>)    // user_group_public_groups: (user_group_id, public_group_id)

  /** The second column of the rows whose first column is `key`, in row order. */
  function Select(rows: seq<(Id, Id)>, key: Id): (out: seq<Id>)
    ensures forall x :: x in out <==> (key, x) in rows
  {
    if rows == [] then []
    else (if rows[0].0 == key then [rows[0].1] else []) + Select(rows[1..], key)
  }

  function Swapped(rows: seq<(Id, Id)>): (out: seq<(Id, Id)>)
    ensures |out| == |rows|
    ensures forall a, b :: (a, b) in out <==> (b, a) in rows
  {
    if rows == [] then [] else [(rows[0].1, rows[0].0)] + Swapped(rows[1..])
  }

  /** Groups that list `g` as one of their public groups. */
  function Parents(t: Tables, g: Id): (out: seq<Id>)
    ensures forall p :: p in out <==> (p, g) in t.nesting
  {
    Select(Swapped(t.nesting), g)
  }

  /** Public groups listed under `g`. */
  function Children(t: Tables, g: Id): (out: seq<Id>)
    ensures forall c :: c in out <==> (g, c) in t.nesting
  {
    Select(t.nesting, g)
  }

  /** Every group that occurs in the nesting table. */
  ghost function Nodes(t: Tables): set<Id> {
    (set e | e in t.nesting :: e.0) + (set e | e in t.nesting :: e.1)
  }

  // ----- reachability, stated by paths ---------------------------------------------------

  /** Consecutive groups are joined by a parent edge: the later one lists the earlier one. */
  ghost predicate ParentPath(t: Tables, path: seq<Id>) {
    path != [] && forall i, j :: 0 <= i && j == i + 1 < |path| ==> (path[j], path[i]) in t.nesting
  }

  /** Consecutive groups are joined by a child edge: the earlier one lists the later one. */
  ghost predicate ChildPath(t: Tables, path: seq<Id>) {
    path != [] && forall i, j :: 0 <= i && j == i + 1 < |path| ==> (path[i], path[j]) in t.nesting
  }

  /** `target` is reached from `g` by zero or more parent edges. */
  ghost predicate Ancestor(t: Tables, g: Id, target: Id) {
    exists path :: ParentPath(t, path) && path[0] == g && path[|path| - 1] == target
  }

  /** `d` is reached from `g` by zero or more child edges. */
  ghost predicate Descendant(t: Tables, g: Id, d: Id) {
    exists path :: ChildPath(t, path) && path[0] == g && path[|path| - 1] == d
  }

  /** `g` itself lists the user, or the given (truthy) profile. */
  predicate Direct(t: Tables, user: Id, profile: Id, g: Id) {
    (user, g) in t.members || (profile != 0 && (profile, g) in t.profiles)
  }

  /** Membership as the documentation of `user_belongs_to_group` words it. */
  ghost predicate Belongs(t: Tables, user: Id, g: Id, profile: Id) {
    exists d :: Descendant(t, g, d) && ((user, d) in t.members || (profile != 0 && (profile, d) in t.profiles))
  }

  function Reversed(path: seq<Id>): (r: seq<Id>)
    ensures |r| == |path|
    ensures forall i :: 0 <= i < |path| ==> r[i] == path[|path| - 1 - i]
  {
    if path == [] then [] else Reversed(path[1..]) + [path[0]]
  }

  /** Reading a path backwards turns parent edges into child edges. */
  lemma AncestorIsDescendantReversed(t: Tables, g: Id, target: Id)
    ensures Ancestor(t, g, target) <==> Descendant(t, target, g)
  {
    if Ancestor(t, g, target) {
      var p :| ParentPath(t, p) && p[0] == g && p[|p| - 1] == target;
      var q := Reversed(p);
      forall i, j | 0 <= i && j == i + 1 < |q| ensures (q[i], q[j]) in t.nesting {
        assert (p[|p| - 1 - i], p[|p| - 1 - j]) in t.nesting;
      }
      assert ChildPath(t, q) && q[0] == target && q[|q| - 1] == g;
    }
    if Descendant(t, target, g) {
      var p :| ChildPath(t, p) && p[0] == target && p[|p| - 1] == g;
      var q := Reversed(p);
      forall i, j | 0 <= i && j == i + 1 < |q| ensures (q[j], q[i]) in t.nesting {
        assert (p[|p| - 1 - j], p[|p| - 1 - i]) in t.nesting;
      }
      assert ParentPath(t, q) && q[0] == g && q[|q| - 1] == target;
    }
  }

  // ----- what a depth-first search that came back empty-handed has established -----------

  /** Every group entered since `before` has all its parents entered and is not the target. */
  ghost predicate ExploredUp(t: Tables, before: set<Id>, after: set<Id>, target: Id) {
    forall x :: x in after && x !in before ==> x != target && forall p :: (p, x) in t.nesting ==> p in after
  }

  /** Every group entered since `before` has all its children entered and grants nothing directly. */
  ghost predicate ExploredDown(t: Tables, before: set<Id>, after: set<Id>, user: Id, profile: Id) {
    forall x :: x in after && x !in before ==>
      !Direct(t, user, profile, x) && forall c :: (x, c) in t.nesting ==> c in after
  }

  /** A path that starts in a set it cannot leave ends there. */
  lemma {:induction false} PathStaysInside(path: seq<Id>, s: set<Id>, n: nat)
    requires n < |path| && path[0] in s
    requires forall i, j :: 0 <= i && j == i + 1 < |path| && path[i] in s ==> path[j] in s
    ensures path[n] in s
  {
    if n > 0 {
      PathStaysInside(path, s, n - 1);
    }
  }

  lemma ExploredUpMissesTarget(t: Tables, s: set<Id>, g: Id, target: Id)
    requires g in s && ExploredUp(t, {}, s, target)
    ensures !Ancestor(t, g, target)
  {
    forall p | ParentPath(t, p) && p[0] == g ensures p[|p| - 1] != target {
      forall i, j | 0 <= i && j == i + 1 < |p| && p[i] in s ensures p[j] in s {
        var x, y := p[i], p[j];
        assert x in s && x !in {};
        assert (y, x) in t.nesting;
      }
      PathStaysInside(p, s, |p| - 1);
    }
  }

  lemma ExploredDownMissesMembers(t: Tables, s: set<Id>, g: Id, user: Id, profile: Id)
    requires g in s && ExploredDown(t, {}, s, user, profile)
    ensures !Belongs(t, user, g, profile)
  {
    forall p | ChildPath(t, p) && p[0] == g ensures !Direct(t, user, profile, p[|p| - 1]) {
      forall i, j | 0 <= i && j == i + 1 < |p| && p[i] in s ensures p[j] in s {
        var x, y := p[i], p[j];
        assert x in s && x !in {};
        assert (x, y) in t.nesting;
      }
      PathStaysInside(p, s, |p| - 1);
    }
  }

  lemma AncestorStep(t: Tables, g: Id, p: Id, target: Id)
    requires (p, g) in t.nesting && Ancestor(t, p, target)
    ensures Ancestor(t, g, target)
  {
    var path :| ParentPath(t, path) && path[0] == p && path[|path| - 1] == target;
    var longer := [g] + path;
    forall i, j | 0 <= i && j == i + 1 < |longer| ensures (longer[j], longer[i]) in t.nesting {
      assert i > 0 ==> (path[j - 1], path[i - 1]) in t.nesting;
    }
    assert ParentPath(t, longer) && longer[0] == g && longer[|longer| - 1] == target;
  }

  lemma BelongsStep(t: Tables, user: Id, g: Id, c: Id, profile: Id)
    requires (g, c) in t.nesting && Belongs(t, user, c, profile)
    ensures Belongs(t, user, g, profile)
  {
    var d :| Descendant(t, c, d) && ((user, d) in t.members || (profile != 0 && (profile, d) in t.profiles));
    var path :| ChildPath(t, path) && path[0] == c && path[|path| - 1] == d;
    var longer := [g] + path;
    forall i, j | 0 <= i && j == i + 1 < |longer| ensures (longer[i], longer[j]) in t.nesting {
      assert i > 0 ==> (path[i - 1], path[j - 1]) in t.nesting;
    }
    assert ChildPath(t, longer) && longer[0] == g && longer[|longer| - 1] == d;
    assert Descendant(t, g, d);
  }

  // ----- the searches --------------------------------------------------------------------

  /** The mutable set that one top-level search shares with all its recursive calls. */
  class Visited {
    var ids: set<Id>

    constructor ()
      ensures ids == {}
    {
      ids := {};
    }
  }

  ghost function Seen(v: Visited?): set<Id>
    reads v
  {
    if v == null then {} else v.ids
  }

  method GroupHasAncestor(t: Tables, g: Id, target: Id, shared: Visited?) returns (found: bool)
    modifies if shared == null then {} else {shared}
    ensures shared == null ==> (found <==> Ancestor(t, g, target))
    ensures found ==> Ancestor(t, g, target)
    ensures shared != null ==> old(shared.ids) <= shared.ids && g in shared.ids
    ensures shared != null && !found ==> ExploredUp(t, old(shared.ids), shared.ids, target)
    decreases Nodes(t) + {g} - Seen(shared)
  {
    var visited := shared;
    if visited == null {
      visited := new Visited();
    }
    ghost var before := visited.ids;
    if g in visited.ids {
      return false;
    }
    visited.ids := visited.ids + {g};
    if g == target {
      assert ParentPath(t, [g]) && [g][0] == g;
      return true;
    }
    var parents := Parents(t, g);
    for i := 0 to |parents|
      invariant before + {g} <= visited.ids
      invariant forall k :: 0 <= k < i ==> parents[k] in visited.ids
      invariant ExploredUp(t, before + {g}, visited.ids, target)
    {
      var inner := visited.ids;
      assert (parents[i], g) in t.nesting;
      assert parents[i] in Nodes(t);
      var ok := GroupHasAncestor(t, parents[i], target, visited);
      if ok {
        AncestorStep(t, g, parents[i], target);
        return true;
      }
    }
    assert ExploredUp(t, before, visited.ids, target);
    if shared == null {
      ExploredUpMissesTarget(t, visited.ids, g, target);
    }
    return false;
  }

  method UserBelongsToGroup(t: Tables, user: Id, g: Id, profile: Id, shared: Visited?) returns (found: bool)
    modifies if shared == null then {} else {shared}
    ensures shared == null ==> (found <==> Belongs(t, user, g, profile))
    ensures found ==> Belongs(t, user, g, profile)
    ensures shared != null ==> old(shared.ids) <= shared.ids && g in shared.ids
    ensures shared != null && !found ==> ExploredDown(t, old(shared.ids), shared.ids, user, profile)
    decreases Nodes(t) + {g} - Seen(shared)
  {
    var visited := shared;
    if visited == null {
      visited := new Visited();
    }
    ghost var before := visited.ids;
    if g in visited.ids {
      return false;
    }
    visited.ids := visited.ids + {g};
    assert ChildPath(t, [g]) && [g][0] == g;
    assert Descendant(t, g, g);
    if (user, g) in t.members {
      assert Direct(t, user, profile, g);
      return true;
    }
    if profile != 0 {
      if (profile, g) in t.profiles {
        assert Direct(t, user, profile, g);
        return true;
      }
    }
    var children := Children(t, g);
    for i := 0 to |children|
      invariant before + {g} <= visited.ids
      invariant forall k :: 0 <= k < i ==> children[k] in visited.ids
      invariant ExploredDown(t, before + {g}, visited.ids, user, profile)
    {
      assert (g, children[i]) in t.nesting;
      assert children[i] in Nodes(t);
      var ok := UserBelongsToGroup(t, user, children[i], profile, visited);
      if ok {
        BelongsStep(t, user, g, children[i], profile);
        return true;
      }
    }
    assert ExploredDown(t, before, visited.ids, user, profile);
    if shared == null {
      ExploredDownMissesMembers(t, visited.ids, g, user, profile);
    }
    return false;
  }

  /** Groups that list the user directly, in row order. */
  function FindUserGroupIds(t: Tables, user: Id): (ids: seq<Id>)
    ensures forall g :: g in ids <==> (user, g) in t.members
  {
    Select(t.members, user)
  }

  /** The upward search over the user's own groups decides what the downward search from the
      target group decides: may the user place a call? */
  method UserCanMakeCall(t: Tables, user: Id, target: Id) returns (allowed: bool)
    ensures allowed <==> user != 0 && target != 0 && target in t.groups && Belongs(t, user, target, 0)
  {
    if user == 0 || target == 0 {
      return false;
    }
    if target !in t.groups {
      return false;
    }
    UpwardAgreesWithDownward(t, user, target);
    var ids := FindUserGroupIds(t, user);
    if ids == [] {
      return false;
    }
    if (user, target) in t.members {
      assert ParentPath(t, [target]) && [target][0] == target;
      assert Ancestor(t, target, target);
      return true;
    }
    for i := 0 to |ids|
      invariant forall k :: 0 <= k < i ==> !Ancestor(t, ids[k], target)
    {
      var ok := GroupHasAncestor(t, ids[i], target, null);
      if ok {
        return true;
      }
    }
    return false;
  }

  /** Some group of the user has the target as an ancestor exactly when the user is listed in
      some group below the target. */
  lemma UpwardAgreesWithDownward(t: Tables, user: Id, target: Id)
    ensures (exists g :: g in FindUserGroupIds(t, user) && Ancestor(t, g, target))
       <==> Belongs(t, user, target, 0)
  {
    forall g ensures Ancestor(t, g, target) <==> Descendant(t, target, g) {
      AncestorIsDescendantReversed(t, g, target);
    }
    if Belongs(t, user, target, 0) {
      var d :| Descendant(t, target, d) && (user, d) in t.members;
      assert d in FindUserGroupIds(t, user);
    }
    if g :| g in FindUserGroupIds(t, user) && Ancestor(t, g, target) {
      assert Descendant(t, target, g) && Direct(t, user, 0, g);
    }
  }
}
