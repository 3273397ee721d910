/** Splitting a report's filter tree into the half SQL can run and the conditions on computed
    fields that Python applies afterwards (`separate_computed_filters`,
    api/BL/computed_fields.py:784-863). */
module FilterSplit {
  import opened Prelude
  import opened FilterGrammar

  datatype Field = Bare(name: string) | Dotted(relation: string, base: string)

  datatype Condition = Condition(field: Field, operator: string, value: string)

  type Filter = Tree<Condition>

  /** The two name sets a field is looked up in. */
  datatype Names = Names(current: set<string>, all: set<string>)

  predicate IsComputed(names: Names, c: Condition) {
    match c.field
    case Dotted(_, base) => base in names.all
    case Bare(name) => name in names.current || name in names.all
  }

  // ----- what the split yields ------------------------------------------------------------

  /** The conditions routed to Python, in reading order; a NOT node is never entered. */
  function Computed(names: Names, t: Filter): seq<Condition> {
    match t
    case Leaf(c) => if IsComputed(names, c) then [c] else []
    case NotT(_) => []
    case AndT(args) => ComputedAll(names, args)
    case OrT(args) => ComputedAll(names, args)
  }

  function ComputedAll(names: Names, ts: seq<Filter>): seq<Condition> {
    if ts == [] then [] else Computed(names, ts[0]) + ComputedAll(names, ts[1..])
  }

  /** The tree left for SQL: emptied nodes vanish, nodes left with one member collapse. */
  function Physical(names: Names, t: Filter): Option<Filter> {
    match t
    case Leaf(c) => if IsComputed(names, c) then None else Some(t)
    case NotT(_) => Some(t)
    case AndT(args) =>
      var kept := PhysicalAll(names, args);
      if kept == [] then None else if |kept| > 1 then Some(AndT(kept)) else Some(kept[0])
    case OrT(args) =>
      var kept := PhysicalAll(names, args);
      if kept == [] then None else if |kept| > 1 then Some(OrT(kept)) else Some(kept[0])
  }

  function PhysicalAll(names: Names, ts: seq<Filter>): seq<Filter> {
    if ts == [] then []
    else
      var p := Physical(names, ts[0]);
      (if p.Some? then [p.value] else []) + PhysicalAll(names, ts[1..])
  }

  class Splitter {
    const names: Names
    var computedFilters: seq<Condition>

    constructor (names: Names)
      ensures this.names == names && computedFilters == []
    {
      this.names := names;
      computedFilters := [];
    }

    method Process(t: Filter) returns (r: Option<Filter>)
      modifies this`computedFilters
      ensures r == Physical(names, t)
      ensures computedFilters == old(computedFilters) + Computed(names, t)
      decreases t, 1
    {
      match t
      case Leaf(c) =>
        if IsComputed(names, c) {
          computedFilters := computedFilters + [c];
          return None;
        }
        return Some(t);
      case NotT(_) =>
        return Some(t);
      case AndT(args) =>
        var kept := ProcessItems(args);
        if kept == [] {
          return None;
        }
        return Some(if |kept| > 1 then AndT(kept) else kept[0]);
      case OrT(args) =>
        var kept := ProcessItems(args);
        if kept == [] {
          return None;
        }
        return Some(if |kept| > 1 then OrT(kept) else kept[0]);
    }

    method ProcessItems(items: seq<Filter>) returns (kept: seq<Filter>)
      modifies this`computedFilters
      ensures kept == PhysicalAll(names, items)
      ensures computedFilters == old(computedFilters) + ComputedAll(names, items)
      decreases items, 0
    {
      hide Physical, Computed;
      kept := [];
      for i := 0 to |items|
        invariant kept + PhysicalAll(names, items[i..]) == PhysicalAll(names, items)
        invariant computedFilters + ComputedAll(names, items[i..])
          == old(computedFilters) + ComputedAll(names, items)
      {
        NextItem(names, items, i, kept, computedFilters);
        var r := Process(items[i]);
        if r.Some? {
          kept := kept + [r.value];
        }
      }
    }
  }

  /** Splitting the next item leaves the whole result the same. */
  lemma NextItem(names: Names, items: seq<Filter>, i: nat, kept: seq<Filter>, found: seq<Condition>)
    requires i < |items|
    ensures var p := Physical(names, items[i]);
      kept + PhysicalAll(names, items[i..])
        == (if p.Some? then kept + [p.value] else kept) + PhysicalAll(names, items[i + 1..])
    ensures found + ComputedAll(names, items[i..])
      == found + Computed(names, items[i]) + ComputedAll(names, items[i + 1..])
  {
    hide Physical, Computed;
    var p, rest := Physical(names, items[i]), items[i + 1..];
    assert items[i..][1..] == rest;
    Assoc(found, Computed(names, items[i]), ComputedAll(names, rest));
    Assoc(kept, if p.Some? then [p.value] else [], PhysicalAll(names, rest));
    assert kept + [] == kept;
  }

  /** The argument and the physical result: one tree, or a list of trees that must all hold. */
  datatype Filters = One(tree: Filter) | Many(items: seq<Filter>)

  function AllComputed(names: Names, filters: Filters): seq<Condition> {
    match filters
    case One(tree) => Computed(names, tree)
    case Many(items) => ComputedAll(names, items)
  }

  /** What SQL is given; without any known computed name the argument itself, not even tidied. */
  function PhysicalPart(names: Names, filters: Filters): Filters {
    if names.current == {} && names.all == {} then filters
    else
      match filters
      case One(tree) => (match Physical(names, tree) case Some(p) => One(p) case None => Many([]))
      case Many(items) => Many(PhysicalAll(names, items))
  }

  /** The whole function; the empty list stands for every falsy argument. */
  method SeparateComputedFilters(filters: Filters, names: Names)
    returns (physical: Filters, computed: seq<Condition>)
    ensures physical == PhysicalPart(names, filters) && computed == AllComputed(names, filters)
  {
    if filters == Many([]) {
      return filters, [];
    }
    if names.current == {} && names.all == {} {
      NothingComputed(names, filters);
      return filters, [];
    }
    var splitter := new Splitter(names);
    match filters
    case One(tree) =>
      var p := splitter.Process(tree);
      physical := if p.Some? then One(p.value) else Many([]);
      computed := splitter.computedFilters;
    case Many(items) =>
      var kept := splitter.ProcessItems(items);
      physical := Many(kept);
      computed := splitter.computedFilters;
  }

  lemma NothingComputed(names: Names, filters: Filters)
    requires names.current == {} && names.all == {}
    ensures AllComputed(names, filters) == []
  {
    match filters
    case One(tree) => NoneComputed(names, [tree]);
    case Many(items) => NoneComputed(names, items);
  }

  lemma {:induction false} NoneComputed(names: Names, ts: seq<Filter>)
    requires names.current == {} && names.all == {}
    ensures ComputedAll(names, ts) == []
    decreases ts
  {
    if ts != [] {
      if ts[0].AndT? || ts[0].OrT? {
        NoneComputed(names, ts[0].args);
      }
      NoneComputed(names, ts[1..]);
    }
  }

  // ----- meaning --------------------------------------------------------------------------

  /** Truth of a tree when exactly the conditions in `env` hold of the row. */
  ghost predicate Holds(t: Filter, env: set<Condition>) {
    match t
    case Leaf(c) => c in env
    case NotT(a) => !Holds(a, env)
    case AndT(args) => forall i | 0 <= i < |args| :: Holds(args[i], env)
    case OrT(args) => exists i | 0 <= i < |args| :: Holds(args[i], env)
  }

  ghost predicate AllHold(ts: seq<Filter>, env: set<Condition>) {
    forall i | 0 <= i < |ts| :: Holds(ts[i], env)
  }

  ghost predicate SomeHolds(ts: seq<Filter>, env: set<Condition>) {
    exists i | 0 <= i < |ts| :: Holds(ts[i], env)
  }

  ghost predicate PhysicalHolds(names: Names, t: Filter, env: set<Condition>) {
    var p := Physical(names, t);
    p.Some? ==> Holds(p.value, env)
  }

  /** Every condition applied in Python holds. */
  ghost predicate Pass(cs: seq<Condition>, env: set<Condition>) {
    forall c | c in cs :: c in env
  }

  /** The two halves together. */
  ghost predicate SplitHolds(names: Names, t: Filter, env: set<Condition>) {
    PhysicalHolds(names, t, env) && Pass(Computed(names, t), env)
  }

  /** No `or` node outside a NOT is empty; `and` nodes may be. */
  ghost predicate OrsNonEmpty(t: Filter) {
    match t
    case Leaf(_) => true
    case NotT(_) => true
    case AndT(args) => forall i | 0 <= i < |args| :: OrsNonEmpty(args[i])
    case OrT(args) => args != [] && forall i | 0 <= i < |args| :: OrsNonEmpty(args[i])
  }

  ghost predicate NotFree(t: Filter) {
    match t
    case Leaf(_) => true
    case NotT(_) => false
    case AndT(args) => forall i | 0 <= i < |args| :: NotFree(args[i])
    case OrT(args) => forall i | 0 <= i < |args| :: NotFree(args[i])
  }

  /** No computed condition lies under an `or` node that offers an alternative. */
  ghost predicate NoComputedUnderOr(names: Names, t: Filter) {
    match t
    case Leaf(_) => true
    case NotT(_) => true
    case AndT(args) => forall i | 0 <= i < |args| :: NoComputedUnderOr(names, args[i])
    case OrT(args) =>
      if |args| >= 2 then Computed(names, t) == []
      else forall i | 0 <= i < |args| :: NoComputedUnderOr(names, args[i])
  }

  // ----- soundness ------------------------------------------------------------------------

  /** Splitting never lets a row through that the original filter rejects. */
  lemma {:induction false} SplitSound(names: Names, t: Filter, env: set<Condition>)
    requires OrsNonEmpty(t) && SplitHolds(names, t, env)
    ensures Holds(t, env)
    decreases t, 1
  {
    match t
    case Leaf(c) => assert IsComputed(names, c) ==> c in Computed(names, t);
    case NotT(_) =>
    case AndT(args) =>
      KeptAndHolds(names, args, env);
      SplitSoundAll(names, args, env);
    case OrT(args) =>
      SplitSoundSome(names, args, env);
  }

  lemma KeptAndHolds(names: Names, args: seq<Filter>, env: set<Condition>)
    ensures PhysicalHolds(names, AndT(args), env) <==> AllHold(PhysicalAll(names, args), env)
  {
  }

  lemma {:induction false} SplitSoundAll(names: Names, ts: seq<Filter>, env: set<Condition>)
    requires forall i | 0 <= i < |ts| :: OrsNonEmpty(ts[i])
    requires AllHold(PhysicalAll(names, ts), env) && Pass(ComputedAll(names, ts), env)
    ensures AllHold(ts, env)
    decreases ts, 0
  {
    if ts != [] {
      SplitHeadTail(names, ts, env);
      hide Physical, PhysicalAll, Computed, ComputedAll, OrsNonEmpty, Holds;
      SplitSound(names, ts[0], env);
      SplitSoundAll(names, ts[1..], env);
      assert forall i | 0 < i < |ts| :: ts[i] == ts[1..][i - 1];
    }
  }

  lemma AllHoldConcat(a: seq<Filter>, b: seq<Filter>, env: set<Condition>)
    requires AllHold(a + b, env)
    ensures AllHold(a, env) && AllHold(b, env)
  {
    hide Holds;
    assert forall i | 0 <= i < |a| :: a[i] == (a + b)[i];
    assert forall i | 0 <= i < |b| :: b[i] == (a + b)[|a| + i];
  }

  lemma PassConcat(a: seq<Condition>, b: seq<Condition>, env: set<Condition>)
    requires Pass(a + b, env)
    ensures Pass(a, env) && Pass(b, env)
  {
    forall c | c in a || c in b ensures c in env {
      assert c in a + b;
    }
  }

  function OneOrNone(p: Option<Filter>): seq<Filter> {
    match p case Some(t) => [t] case None => []
  }

  /** Both halves of a list hold only if those of its head and of its tail do. */
  lemma SplitHeadTail(names: Names, ts: seq<Filter>, env: set<Condition>)
    requires ts != [] && AllHold(PhysicalAll(names, ts), env) && Pass(ComputedAll(names, ts), env)
    ensures SplitHolds(names, ts[0], env)
    ensures AllHold(PhysicalAll(names, ts[1..]), env) && Pass(ComputedAll(names, ts[1..]), env)
  {
    hide Physical, Computed, Holds, Pass;
    var own := OneOrNone(Physical(names, ts[0]));
    assert PhysicalAll(names, ts) == own + PhysicalAll(names, ts[1..]);
    PassConcat(Computed(names, ts[0]), ComputedAll(names, ts[1..]), env);
    AllHoldConcat(own, PhysicalAll(names, ts[1..]), env);
    assert own != [] ==> Holds(own[0], env);
  }

  lemma {:induction false} SplitSoundSome(names: Names, ts: seq<Filter>, env: set<Condition>)
    requires ts != [] && forall i | 0 <= i < |ts| :: OrsNonEmpty(ts[i])
    requires PhysicalAll(names, ts) == [] || SomeHolds(PhysicalAll(names, ts), env)
    requires Pass(ComputedAll(names, ts), env)
    ensures SomeHolds(ts, env)
    decreases ts, 0
  {
    var p := Physical(names, ts[0]);
    var kept, later := PhysicalAll(names, ts), PhysicalAll(names, ts[1..]);
    assert kept == (if p.Some? then [p.value] else []) + later;
    if p == None || Holds(p.value, env) {
      SplitSound(names, ts[0], env);
    } else {
      var i :| 0 <= i < |kept| && Holds(kept[i], env);
      assert i > 0 && later[i - 1] == kept[i] && |ts| > 1;
      SplitSoundSome(names, ts[1..], env);
      var j :| 0 <= j < |ts| - 1 && Holds(ts[1..][j], env);
      assert ts[j + 1] == ts[1..][j];
    }
  }

  // ----- exactness ------------------------------------------------------------------------

  /** Outside NOT, no node is empty. */
  ghost predicate NodesNonEmpty(t: Filter) {
    match t
    case Leaf(_) => true
    case NotT(_) => true
    case AndT(args) => args != [] && forall i | 0 <= i < |args| :: NodesNonEmpty(args[i])
    case OrT(args) => args != [] && forall i | 0 <= i < |args| :: NodesNonEmpty(args[i])
  }

  /** A tree without computed conditions keeps its meaning. */
  lemma {:induction false} NothingDropped(names: Names, t: Filter, env: set<Condition>)
    requires NodesNonEmpty(t) && Computed(names, t) == []
    ensures Physical(names, t).Some? && (Holds(Physical(names, t).value, env) <==> Holds(t, env))
    decreases t, 1
  {
    if t.AndT? || t.OrT? {
      NothingDroppedAll(names, t.args, env);
      var kept := PhysicalAll(names, t.args);
      assert Holds(t.args[0], env) <==> Holds(kept[0], env);
    }
  }

  lemma {:induction false} NothingDroppedAll(names: Names, ts: seq<Filter>, env: set<Condition>)
    requires (forall i | 0 <= i < |ts| :: NodesNonEmpty(ts[i])) && ComputedAll(names, ts) == []
    ensures |PhysicalAll(names, ts)| == |ts|
    ensures forall i | 0 <= i < |ts| :: Holds(PhysicalAll(names, ts)[i], env) <==> Holds(ts[i], env)
    decreases ts, 0
  {
    if ts != [] {
      NothingDropped(names, ts[0], env);
      NothingDroppedAll(names, ts[1..], env);
    }
  }

  /** Outside NOT, every node has at least two members. */
  ghost predicate Branching(t: Filter) {
    match t
    case Leaf(_) => true
    case NotT(_) => true
    case AndT(args) => |args| >= 2 && forall i | 0 <= i < |args| :: Branching(args[i])
    case OrT(args) => |args| >= 2 && forall i | 0 <= i < |args| :: Branching(args[i])
  }

  /** What is left for SQL has no node that joins nothing. */
  lemma {:induction false} PhysicalBranches(names: Names, t: Filter)
    ensures Physical(names, t).Some? ==> Branching(Physical(names, t).value)
    decreases t, 1
  {
    if t.AndT? || t.OrT? {
      PhysicalBranchesAll(names, t.args);
    }
  }

  lemma {:induction false} PhysicalBranchesAll(names: Names, ts: seq<Filter>)
    ensures forall i | 0 <= i < |PhysicalAll(names, ts)| :: Branching(PhysicalAll(names, ts)[i])
    decreases ts, 0
  {
    if ts != [] {
      PhysicalBranches(names, ts[0]);
      PhysicalBranchesAll(names, ts[1..]);
    }
  }

  /** Where no alternative mixes in a computed condition, splitting rejects nothing either. */
  lemma {:induction false} SplitComplete(names: Names, t: Filter, env: set<Condition>)
    requires NodesNonEmpty(t) && NoComputedUnderOr(names, t) && Holds(t, env)
    ensures SplitHolds(names, t, env)
    decreases t, 1
  {
    match t
    case Leaf(c) =>
    case NotT(_) =>
    case AndT(args) =>
      SplitCompleteAll(names, args, env);
      KeptAndHolds(names, args, env);
    case OrT(args) =>
      if |args| >= 2 {
        NothingDropped(names, t, env);
      } else {
        SplitCompleteAll(names, args, env);
        assert args[1..] == [];
        assert |PhysicalAll(names, args)| <= 1;
      }
  }

  lemma {:induction false} SplitCompleteAll(names: Names, ts: seq<Filter>, env: set<Condition>)
    requires forall i | 0 <= i < |ts| :: NodesNonEmpty(ts[i]) && NoComputedUnderOr(names, ts[i])
    requires AllHold(ts, env)
    ensures AllHold(PhysicalAll(names, ts), env) && Pass(ComputedAll(names, ts), env)
    decreases ts, 0
  {
    if ts != [] {
      SplitComplete(names, ts[0], env);
      SplitCompleteAll(names, ts[1..], env);
    }
  }

  // ----- conservation ---------------------------------------------------------------------

  /** Every condition written in the tree, also those below a NOT, in reading order. */
  function Leaves(t: Filter): seq<Condition> {
    match t
    case Leaf(c) => [c]
    case NotT(a) => Leaves(a)
    case AndT(args) => LeavesAll(args)
    case OrT(args) => LeavesAll(args)
  }

  function LeavesAll(ts: seq<Filter>): seq<Condition> {
    if ts == [] then [] else Leaves(ts[0]) + LeavesAll(ts[1..])
  }

  function KeptLeaves(names: Names, t: Filter): seq<Condition> {
    match Physical(names, t) case Some(p) => Leaves(p) case None => []
  }

  lemma KeptLeavesCons(names: Names, ts: seq<Filter>)
    requires ts != []
    ensures LeavesAll(PhysicalAll(names, ts)) == KeptLeaves(names, ts[0]) + LeavesAll(PhysicalAll(names, ts[1..]))
  {
    var p := Physical(names, ts[0]);
    var kept, later := PhysicalAll(names, ts), PhysicalAll(names, ts[1..]);
    if p.Some? {
      assert kept == [p.value] + later;
      assert kept[0] == p.value && kept[1..] == later;
    } else {
      assert kept == later;
    }
  }

  /** No condition is lost, duplicated or invented. */
  lemma {:induction false} SplitConserves(names: Names, t: Filter)
    ensures multiset(Leaves(t)) == multiset(KeptLeaves(names, t)) + multiset(Computed(names, t))
    decreases t, 1
  {
    if t.AndT? || t.OrT? {
      SplitConservesAll(names, t.args);
      var kept := PhysicalAll(names, t.args);
      if |kept| == 1 {
        assert LeavesAll(kept) == Leaves(kept[0]);
      }
    }
  }

  lemma {:induction false} SplitConservesAll(names: Names, ts: seq<Filter>)
    ensures multiset(LeavesAll(ts)) == multiset(LeavesAll(PhysicalAll(names, ts))) + multiset(ComputedAll(names, ts))
    decreases ts, 0
  {
    if ts != [] {
      SplitConserves(names, ts[0]);
      SplitConservesAll(names, ts[1..]);
      KeptLeavesCons(names, ts);
    }
  }

  /** Everything routed to Python is computed, and a NOT-free tree leaves SQL nothing computed. */
  lemma {:induction false} SplitSeparates(names: Names, t: Filter)
    ensures forall c | c in Computed(names, t) :: IsComputed(names, c)
    ensures NotFree(t) ==> forall c | c in KeptLeaves(names, t) :: !IsComputed(names, c)
    decreases t, 1
  {
    if t.AndT? || t.OrT? {
      SplitSeparatesAll(names, t.args);
      var kept := PhysicalAll(names, t.args);
      if |kept| == 1 {
        assert LeavesAll(kept) == Leaves(kept[0]);
      }
    }
  }

  lemma {:induction false} SplitSeparatesAll(names: Names, ts: seq<Filter>)
    ensures forall c | c in ComputedAll(names, ts) :: IsComputed(names, c)
    ensures (forall i | 0 <= i < |ts| :: NotFree(ts[i])) ==>
      forall c | c in LeavesAll(PhysicalAll(names, ts)) :: !IsComputed(names, c)
    decreases ts, 0
  {
    if ts != [] {
      SplitSeparates(names, ts[0]);
      SplitSeparatesAll(names, ts[1..]);
      KeptLeavesCons(names, ts);
    }
  }

  /** The conditions written outside any NOT, in reading order. */
  function OuterLeaves(t: Filter): seq<Condition> {
    match t
    case Leaf(c) => [c]
    case NotT(_) => []
    case AndT(args) => OuterLeavesAll(args)
    case OrT(args) => OuterLeavesAll(args)
  }

  function OuterLeavesAll(ts: seq<Filter>): seq<Condition> {
    if ts == [] then [] else OuterLeaves(ts[0]) + OuterLeavesAll(ts[1..])
  }

  /** Those on computed fields, or the others: a dotted name is looked up among all computed fields,
      a bare one also among those of the report's own table. */
  function Only(names: Names, cs: seq<Condition>, computed: bool): (out: seq<Condition>)
    ensures forall c :: c in out <==> c in cs && (computed <==>
      if c.field.Dotted? then c.field.base in names.all
      else c.field.name in names.current || c.field.name in names.all)
  {
    if cs == [] then []
    else (if IsComputed(names, cs[0]) == computed then [cs[0]] else []) + Only(names, cs[1..], computed)
  }

  lemma {:induction false} OnlyConcat(names: Names, a: seq<Condition>, b: seq<Condition>, computed: bool)
    ensures Only(names, a + b, computed) == Only(names, a, computed) + Only(names, b, computed)
  {
    hide IsComputed;
    if a == [] {
      assert a + b == b;
    } else {
      OnlyConcat(names, a[1..], b, computed);
      assert (a + b)[1..] == a[1..] + b && (a + b)[0] == a[0];
      Assoc(if IsComputed(names, a[0]) == computed then [a[0]] else [], Only(names, a[1..], computed),
            Only(names, b, computed));
    }
  }

  function OuterKept(names: Names, t: Filter): seq<Condition> {
    match Physical(names, t) case Some(p) => OuterLeaves(p) case None => []
  }

  lemma OuterKeptCons(names: Names, ts: seq<Filter>)
    requires ts != []
    ensures OuterLeavesAll(PhysicalAll(names, ts)) ==
      OuterKept(names, ts[0]) + OuterLeavesAll(PhysicalAll(names, ts[1..]))
  {
    hide Physical, OuterLeaves;
    var p, later := Physical(names, ts[0]), PhysicalAll(names, ts[1..]);
    if p.Some? {
      assert PhysicalAll(names, ts) == [p.value] + later && ([p.value] + later)[1..] == later;
    } else {
      assert PhysicalAll(names, ts) == later;
    }
  }

  /** Outside NOT, Python gets exactly the conditions on computed fields and SQL exactly the others,
      each in reading order. */
  lemma {:induction false} SplitInOrder(names: Names, t: Filter)
    ensures Computed(names, t) == Only(names, OuterLeaves(t), true)
    ensures OuterKept(names, t) == Only(names, OuterLeaves(t), false)
    decreases t, 1
  {
    if t.AndT? || t.OrT? {
      SplitInOrderAll(names, t.args);
      var kept := PhysicalAll(names, t.args);
      if |kept| == 1 {
        assert OuterLeavesAll(kept) == OuterLeaves(kept[0]);
      }
    } else if t.Leaf? {
      assert Only(names, [], true) == [] && [t.filter][1..] == [];
    }
  }

  lemma {:induction false} SplitInOrderAll(names: Names, ts: seq<Filter>)
    ensures ComputedAll(names, ts) == Only(names, OuterLeavesAll(ts), true)
    ensures OuterLeavesAll(PhysicalAll(names, ts)) == Only(names, OuterLeavesAll(ts), false)
    decreases ts, 0
  {
    hide Only, Computed, Physical, OuterLeaves;
    if ts == [] {
      NothingOf(names);
    } else {
      SplitInOrder(names, ts[0]);
      SplitInOrderAll(names, ts[1..]);
      OuterKeptCons(names, ts);
      OnlyConcat(names, OuterLeaves(ts[0]), OuterLeavesAll(ts[1..]), true);
      OnlyConcat(names, OuterLeaves(ts[0]), OuterLeavesAll(ts[1..]), false);
    }
  }

  lemma NothingOf(names: Names)
    ensures Only(names, [], true) == [] && Only(names, [], false) == []
  {
  }

  // ----- exactly when splitting is an equivalence -----------------------------------------

  ghost predicate Distinct(cs: seq<Condition>) {
    forall i, j :: 0 <= i < j < |cs| ==> cs[i] != cs[j]
  }

  /** No node is empty, not even below a NOT. */
  ghost predicate NonEmpty(t: Filter) {
    match t
    case Leaf(_) => true
    case NotT(a) => NonEmpty(a)
    case AndT(args) => args != [] && forall i | 0 <= i < |args| :: NonEmpty(args[i])
    case OrT(args) => args != [] && forall i | 0 <= i < |args| :: NonEmpty(args[i])
  }

  lemma {:induction false} NonEmptyOutside(t: Filter)
    requires NonEmpty(t)
    ensures NodesNonEmpty(t)
  {
    if t.AndT? || t.OrT? {
      forall i | 0 <= i < |t.args| ensures NodesNonEmpty(t.args[i]) {
        NonEmptyOutside(t.args[i]);
      }
    }
  }

  /** Both say the same about each of these conditions. */
  ghost predicate Alike(cs: seq<Condition>, env: set<Condition>, env': set<Condition>) {
    forall c | c in cs :: c in env <==> c in env'
  }

  /** The truth of a tree depends on its own conditions only. */
  lemma {:induction false} OwnLeavesDecide(t: Filter, env: set<Condition>, env': set<Condition>)
    requires Alike(Leaves(t), env, env')
    ensures Holds(t, env) <==> Holds(t, env')
  {
    match t
    case Leaf(_) => assert t.filter in Leaves(t);
    case NotT(a) => OwnLeavesDecide(a, env, env');
    case _ =>
      forall i | 0 <= i < |t.args| ensures Holds(t.args[i], env) <==> Holds(t.args[i], env') {
        LeavesOfMember(t.args, i);
        OwnLeavesDecide(t.args[i], env, env');
      }
  }

  /** A tree of distinct conditions can be made true, and false, by its own conditions. */
  lemma {:induction false} CanBe(t: Filter, b: bool) returns (env: set<Condition>)
    requires NonEmpty(t) && Distinct(Leaves(t))
    ensures (Holds(t, env) <==> b) && forall c | c in env :: c in Leaves(t)
    decreases t, 1
  {
    match t
    case Leaf(c) => env := if b then {c} else {};
    case NotT(a) => env := CanBe(a, !b);
    case _ =>
      env := CanBeAll(t.args, b);
      assert Holds(t.args[0], env) <==> b;
  }

  lemma {:induction false} CanBeAll(ts: seq<Filter>, b: bool) returns (env: set<Condition>)
    requires (forall i | 0 <= i < |ts| :: NonEmpty(ts[i])) && Distinct(LeavesAll(ts))
    ensures forall i | 0 <= i < |ts| :: Holds(ts[i], env) <==> b
    ensures forall c | c in env :: c in LeavesAll(ts)
    decreases ts, 0
  {
    if ts == [] {
      env := {};
    } else {
      var a, d := Leaves(ts[0]), LeavesAll(ts[1..]);
      assert [] + a + d == LeavesAll(ts) && a + d + [] == LeavesAll(ts);
      DistinctParts([], a, d);
      DistinctParts(a, d, []);
      var first := CanBe(ts[0], b);
      var later := CanBeAll(ts[1..], b);
      env := first + later;
      OwnLeavesDecide(ts[0], first, env);
      forall i | 0 <= i < |ts| ensures Holds(ts[i], env) <==> b {
        if i > 0 {
          LeavesOfMember(ts[1..], i - 1);
          OwnLeavesDecide(ts[1..][i - 1], later, env);
        }
      }
    }
  }

  lemma LeavesCons(t: Filter, ts: seq<Filter>)
    ensures LeavesAll([t] + ts) == Leaves(t) + LeavesAll(ts)
  {
    assert ([t] + ts)[1..] == ts;
  }

  lemma {:induction false} LeavesConcat(ts: seq<Filter>, us: seq<Filter>)
    ensures LeavesAll(ts + us) == LeavesAll(ts) + LeavesAll(us)
  {
    hide Leaves;
    if ts == [] {
      assert ts + us == us;
    } else {
      hide LeavesAll;
      LeavesConcat(ts[1..], us);
      LeavesCons(ts[0], ts[1..] + us);
      LeavesCons(ts[0], ts[1..]);
      Assoc([ts[0]], ts[1..], us);
      Assoc(Leaves(ts[0]), LeavesAll(ts[1..]), LeavesAll(us));
      assert ts == [ts[0]] + ts[1..];
    }
  }

  lemma SliceAt<T>(s: seq<T>, i: nat)
    requires i < |s|
    ensures s == s[..i] + s[i..] && s[i..] == [s[i]] + s[i + 1..]
  {
  }

  lemma LeavesOfMember(ts: seq<Filter>, i: nat)
    requires i < |ts|
    ensures LeavesAll(ts) == LeavesAll(ts[..i]) + Leaves(ts[i]) + LeavesAll(ts[i + 1..])
  {
    hide Leaves, LeavesAll;
    SliceAt(ts, i);
    LeavesConcat(ts[..i], ts[i..]);
    LeavesCons(ts[i], ts[i + 1..]);
    Assoc(LeavesAll(ts[..i]), Leaves(ts[i]), LeavesAll(ts[i + 1..]));
  }

  lemma {:induction false} ComputedOfMember(names: Names, ts: seq<Filter>, c: Condition) returns (i: nat)
    requires c in ComputedAll(names, ts)
    ensures i < |ts| && c in Computed(names, ts[i])
  {
    if c in Computed(names, ts[0]) {
      i := 0;
    } else {
      var k := ComputedOfMember(names, ts[1..], c);
      i := k + 1;
    }
  }

  lemma ComputedIsLeaf(names: Names, t: Filter, c: Condition)
    requires c in Computed(names, t)
    ensures c in Leaves(t)
  {
    SplitConserves(names, t);
    assert c in multiset(Computed(names, t));
    assert c in multiset(Leaves(t));
  }

  /** A computed condition under an alternative is not decisive: some such condition may fail
      while the whole filter holds. */
  lemma {:induction false} UndecisiveCondition(names: Names, t: Filter) returns (c: Condition, env: set<Condition>)
    requires NonEmpty(t) && Distinct(Leaves(t)) && !NoComputedUnderOr(names, t)
    ensures c in Computed(names, t) && c !in env && Holds(t, env) && forall x | x in env :: x in Leaves(t)
  {
    if t.OrT? && |t.args| >= 2 {
      c := Computed(names, t)[0];
      var i := ComputedOfMember(names, t.args, c);
      ComputedIsLeaf(names, t.args[i], c);
      var j := if i == 0 then 1 else 0;
      MembersDisjoint(t.args, i, j, c);
      MemberDistinct(t.args, j);
      env := CanBe(t.args[j], true);
    } else {
      var i :| 0 <= i < |t.args| && !NoComputedUnderOr(names, t.args[i]);
      MemberDistinct(t.args, i);
      var own: set<Condition>;
      c, own := UndecisiveCondition(names, t.args[i]);
      ComputedIsLeaf(names, t.args[i], c);
      ComputedOfAll(names, t.args, i, c);
      env := OthersHold(t.args, i, own);
      OwnLeavesDecide(t.args[i], own, env);
    }
  }

  /** What holds of one member's conditions can be extended so that all other members hold. */
  lemma OthersHold(ts: seq<Filter>, i: nat, own: set<Condition>) returns (env: set<Condition>)
    requires i < |ts| && (forall j | 0 <= j < |ts| :: NonEmpty(ts[j])) && Distinct(LeavesAll(ts))
    requires forall x | x in own :: x in Leaves(ts[i])
    ensures Alike(Leaves(ts[i]), own, env) && forall x | x in env :: x in LeavesAll(ts)
    ensures forall j | 0 <= j < |ts| && j != i :: Holds(ts[j], env)
  {
    hide Holds, NonEmpty, Leaves;
    var others := ts[..i] + ts[i + 1..];
    assert forall j | 0 <= j < |others| :: others[j] == ts[if j < i then j else j + 1];
    MemberDistinct(ts, i);
    OthersDisjoint(ts, i);
    var rest := CanBeAll(others, true);
    env := own + rest;
    forall j | 0 <= j < |ts| && j != i ensures Holds(ts[j], env) {
      var k := if j < i then j else j - 1;
      assert others[k] == ts[j];
      MemberDistinct(others, k);
      assert Alike(Leaves(others[k]), rest, env);
      OwnLeavesDecide(others[k], rest, env);
    }
  }

  /** Each member has distinct leaves, all of them leaves of the list. */
  lemma MemberDistinct(ts: seq<Filter>, i: nat)
    requires i < |ts| && Distinct(LeavesAll(ts))
    ensures Distinct(Leaves(ts[i])) && forall c | c in Leaves(ts[i]) :: c in LeavesAll(ts)
  {
    LeavesOfMember(ts, i);
    DistinctParts(LeavesAll(ts[..i]), Leaves(ts[i]), LeavesAll(ts[i + 1..]));
  }

  /** The leaves of the other members are distinct, and none of them is one of this member. */
  lemma OthersDisjoint(ts: seq<Filter>, i: nat)
    requires i < |ts| && Distinct(LeavesAll(ts))
    ensures Distinct(LeavesAll(ts[..i] + ts[i + 1..]))
    ensures forall c | c in LeavesAll(ts[..i] + ts[i + 1..]) :: c in LeavesAll(ts) && c !in Leaves(ts[i])
  {
    var a, b, d := LeavesAll(ts[..i]), Leaves(ts[i]), LeavesAll(ts[i + 1..]);
    LeavesOfMember(ts, i);
    LeavesConcat(ts[..i], ts[i + 1..]);
    DistinctParts(a, b, d);
    WithoutMiddle(a, b, d);
  }

  lemma WithoutMiddle(a: seq<Condition>, b: seq<Condition>, d: seq<Condition>)
    requires Distinct(a + b + d)
    ensures Distinct(a + d)
  {
    var all, rest := a + b + d, a + d;
    assert forall i | 0 <= i < |rest| :: rest[i] == all[if i < |a| then i else i + |b|];
  }

  lemma DistinctParts(a: seq<Condition>, b: seq<Condition>, d: seq<Condition>)
    requires Distinct(a + b + d)
    ensures Distinct(b) && forall x | x in b :: x !in a && x !in d
  {
    var all := a + b + d;
    assert forall i | 0 <= i < |a| :: a[i] == all[i];
    assert forall i | 0 <= i < |b| :: b[i] == all[|a| + i];
    assert forall i | 0 <= i < |d| :: d[i] == all[|a| + |b| + i];
  }

  lemma {:induction false} ComputedOfAll(names: Names, ts: seq<Filter>, i: nat, c: Condition)
    requires i < |ts| && c in Computed(names, ts[i])
    ensures c in ComputedAll(names, ts)
  {
    if i > 0 {
      ComputedOfAll(names, ts[1..], i - 1, c);
    }
  }

  /** In a list with distinct leaves, a leaf of one member is no leaf of another. */
  lemma {:induction false} MembersDisjoint(ts: seq<Filter>, i: nat, j: nat, c: Condition)
    requires i < |ts| && j < |ts| && i != j && Distinct(LeavesAll(ts)) && c in Leaves(ts[i])
    ensures c !in Leaves(ts[j])
  {
    LeavesOfMember(ts, i);
    DistinctParts(LeavesAll(ts[..i]), Leaves(ts[i]), LeavesAll(ts[i + 1..]));
    if j < i {
      LeavesOfMember(ts[..i], j);
      assert ts[..i][j] == ts[j];
    } else {
      LeavesOfMember(ts[i + 1..], j - i - 1);
      assert ts[i + 1..][j - i - 1] == ts[j];
    }
  }

  /** For a filter of distinct conditions without empty nodes: the two halves mean the same as the
      filter, whatever holds of the row, exactly when no computed condition sits under an `or`
      with an alternative, outside any NOT. */
  lemma SplitExactlyWhen(names: Names, t: Filter)
    requires NonEmpty(t) && Distinct(Leaves(t))
    ensures (forall env :: SplitHolds(names, t, env) <==> Holds(t, env)) <==> NoComputedUnderOr(names, t)
  {
    NonEmptyOutside(t);
    NonEmptyOrs(t);
    if NoComputedUnderOr(names, t) {
      forall env ensures SplitHolds(names, t, env) <==> Holds(t, env) {
        if SplitHolds(names, t, env) { SplitSound(names, t, env); }
        if Holds(t, env) { SplitComplete(names, t, env); }
      }
    } else {
      var c, env := UndecisiveCondition(names, t);
      assert !Pass(Computed(names, t), env);
      assert !SplitHolds(names, t, env);
    }
  }

  lemma {:induction false} NonEmptyOrs(t: Filter)
    requires NodesNonEmpty(t)
    ensures OrsNonEmpty(t)
  {
    if t.AndT? || t.OrT? {
      forall i | 0 <= i < |t.args| ensures OrsNonEmpty(t.args[i]) {
        NonEmptyOrs(t.args[i]);
      }
    }
  }

  /** `computed OR physical`: a row satisfying only the physical side is wrongly dropped. */
  lemma SplitLosesAlternatives()
    ensures var total := Condition(Bare("total"), ">", "5");
            var city := Condition(Bare("city"), "=", "Pune");
            var t := OrT([Leaf(total), Leaf(city)]);
            var names := Names({"total"}, {"total"});
            Holds(t, {city}) && !SplitHolds(names, t, {city})
  {
    var total := Condition(Bare("total"), ">", "5");
    var city := Condition(Bare("city"), "=", "Pune");
    var t := OrT([Leaf(total), Leaf(city)]);
    var names := Names({"total"}, {"total"});
    assert Holds(t.args[1], {city});
    assert total in ComputedAll(names, t.args) by {
      assert Computed(names, t.args[0]) == [total];
    }
  }

  lemma SplitCons(names: Names, t: Filter, ts: seq<Filter>)
    ensures ComputedAll(names, [t] + ts) == Computed(names, t) + ComputedAll(names, ts)
    ensures PhysicalAll(names, [t] + ts) == OneOrNone(Physical(names, t)) + PhysicalAll(names, ts)
  {
    assert ([t] + ts)[1..] == ts;
  }

  lemma SplitPair(names: Names, t: Filter, u: Filter)
    ensures ComputedAll(names, [t, u]) == Computed(names, t) + Computed(names, u)
    ensures PhysicalAll(names, [t, u]) == OneOrNone(Physical(names, t)) + OneOrNone(Physical(names, u))
  {
    hide Computed, Physical;
    SplitCons(names, t, [u]);
    SplitCons(names, u, []);
    assert [t, u] == [t] + [u] && [u] + [] == [u];
  }

  lemma HoldsPair(t: Filter, u: Filter, env: set<Condition>)
    ensures Holds(OrT([t, u]), env) <==> Holds(t, env) || Holds(u, env)
    ensures Holds(AndT([t, u]), env) <==> Holds(t, env) && Holds(u, env)
  {
    var args := [t, u];
    assert args[0] == t && args[1] == u;
    assert forall i | 0 <= i < |args| :: args[i] == t || args[i] == u;
  }

  /** Both requirements are needed: `a OR a` on a computed field splits without loss ... */
  lemma RepeatedConditionAbsorbs(a: Condition, names: Names)
    requires IsComputed(names, a)
    ensures !NoComputedUnderOr(names, OrT([Leaf(a), Leaf(a)]))
    ensures forall env :: SplitHolds(names, OrT([Leaf(a), Leaf(a)]), env) <==> Holds(OrT([Leaf(a), Leaf(a)]), env)
  {
    SplitPair(names, Leaf(a), Leaf(a));
    hide ComputedAll, PhysicalAll;
    assert Computed(names, Leaf(a)) == [a] && [a] + [a] == [a, a] && a in [a, a];
    forall env ensures Holds(OrT([Leaf(a), Leaf(a)]), env) <==> a in env {
      HoldsPair(Leaf(a), Leaf(a), env);
    }
  }

  /** ... and so does `(a OR b) AND NOT AND()`, which no row satisfies, if a node may be empty. */
  lemma EmptyNodeAbsorbs(a: Condition, b: Condition, names: Names)
    requires IsComputed(names, a) && !IsComputed(names, b)
    ensures var t := AndT([OrT([Leaf(a), Leaf(b)]), NotT(AndT([]))]);
      !NoComputedUnderOr(names, t) && forall env :: SplitHolds(names, t, env) <==> Holds(t, env)
  {
    var either: Filter := OrT([Leaf(a), Leaf(b)]);
    var never: Filter := NotT(AndT([]));
    SplitPair(names, Leaf(a), Leaf(b));
    SplitPair(names, either, never);
    hide ComputedAll, PhysicalAll;
    assert [Leaf(b)] + [never] == [Leaf(b), never];
    forall env ensures !Holds(AndT([either, never]), env) && !Holds(AndT([Leaf(b), never]), env) {
      HoldsPair(either, never, env);
      HoldsPair(Leaf(b), never, env);
    }
    assert Computed(names, either) == [a] + [];
    assert !NoComputedUnderOr(names, [either, never][0]);
  }

  // ----- the same for the whole function --------------------------------------------------

  function Items(filters: Filters): seq<Filter> {
    match filters case One(tree) => [tree] case Many(items) => items
  }

  /** The physical result together with the Python conditions implies the original filters; it
      is equivalent to them where no alternative mixes in a computed condition. */
  lemma SeparateMeaning(names: Names, filters: Filters, env: set<Condition>)
    requires forall i | 0 <= i < |Items(filters)| :: NodesNonEmpty(Items(filters)[i])
    ensures names.current == {} && names.all == {} ==> PhysicalPart(names, filters) == filters
    ensures AllHold(Items(PhysicalPart(names, filters)), env) && Pass(AllComputed(names, filters), env)
      ==> AllHold(Items(filters), env)
    ensures (forall i | 0 <= i < |Items(filters)| :: NoComputedUnderOr(names, Items(filters)[i]))
      && AllHold(Items(filters), env)
      ==> AllHold(Items(PhysicalPart(names, filters)), env) && Pass(AllComputed(names, filters), env)
  {
    var items := Items(filters);
    forall i | 0 <= i < |items| ensures OrsNonEmpty(items[i]) {
      NonEmptyOrs(items[i]);
    }
    if names.current == {} && names.all == {} {
      NothingComputed(names, filters);
    } else {
      if filters.One? {
        assert items[1..] == [] && ComputedAll(names, items) == Computed(names, items[0]) + [];
      }
      assert Items(PhysicalPart(names, filters)) == PhysicalAll(names, items);
      assert AllComputed(names, filters) == ComputedAll(names, items);
      if AllHold(PhysicalAll(names, items), env) && Pass(ComputedAll(names, items), env) {
        SplitSoundAll(names, items, env);
      }
      if AllHold(items, env) && forall i | 0 <= i < |items| :: NoComputedUnderOr(names, items[i]) {
        SplitCompleteAll(names, items, env);
      }
    }
  }
}
