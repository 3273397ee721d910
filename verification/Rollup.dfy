/** Roll-up summaries over child rows: one parent at a time, and one batch for many parents
    (api/formulas/evaluate_rollup.py).  The child table is a sequence of rows; SQL's WHERE on the
    filter criteria is an arbitrary predicate, rounding to two places an arbitrary function. */
module Rollup {
  import opened Prelude
  import opened Totals

  /** 0 stands for every falsy identifier. */
  type Id = int

  /** A child row; an absent column is NULL. */
  datatype Child = Child(parent: Option<Id>, columns: map<string, real>)

  /** Evaluating a formula field on a row: an exception, None, or a number. */
  datatype Eval = Raises | Nothing | Number(x: real)

  /** What is aggregated.  For a formula field `sql` is what a query can aggregate in its place, the
      inlined text or a stored column; it raises where the query as a whole would fail. */
  datatype Source =
    | NoField
    | Physical(column: string)
    | FormulaField(eval: map<string, real> -> Eval, sql: Option<map<string, real> -> Eval>)

  datatype Kind = COUNT | SUM | MIN | MAX | OtherKind(name: string)

  datatype Spec = Spec(kind: Kind, source: Source, criteria: map<string, real> -> bool, round: real -> real)

  datatype RollupError = InvalidType | FieldRequired | QueryFailed

  // ----- the value of one rollup ----------------------------------------------------------

  function Check(spec: Spec): Option<RollupError> {
    if spec.kind.OtherKind? then Some(InvalidType)
    else if spec.kind != COUNT && spec.source.NoField? then Some(FieldRequired)
    else None
  }

  /** The child rows of one parent that meet the criteria, in table order. */
  function ChildrenOf(rows: seq<Child>, spec: Spec, id: Id): seq<Child> {
    if rows == [] then []
    else
      var later := ChildrenOf(rows[1..], spec, id);
      if rows[0].parent == Some(id) && spec.criteria(rows[0].columns) then [rows[0]] + later else later
  }

  /** The number a row contributes, if any: failing and empty ones are skipped. */
  function NumberOf(source: Source, row: Child): seq<real> {
    match source
    case NoField => []
    case Physical(column) => if column in row.columns then [row.columns[column]] else []
    case FormulaField(eval, _) => (match eval(row.columns) case Number(x) => [x] case _ => [])
  }

  function Numbers(source: Source, rows: seq<Child>): seq<real> {
    if rows == [] then [] else NumberOf(source, rows[0]) + Numbers(source, rows[1..])
  }

  function Combine(kind: Kind, xs: seq<real>): real
    requires xs != []
  {
    match kind case MIN => Min(xs) case MAX => Max(xs) case _ => Sum(xs)
  }

  /** The rollup of the given child rows; nothing to aggregate counts as 0.  Only the Python
      path, taken for formula fields, rounds. */
  function Aggregate(spec: Spec, rows: seq<Child>): real {
    if spec.kind == COUNT then |rows| as real
    else
      var xs := Numbers(spec.source, rows);
      if xs == [] then 0.0
      else if spec.source.FormulaField? then spec.round(Combine(spec.kind, xs))
      else Combine(spec.kind, xs)
  }

  function RollupOf(rows: seq<Child>, spec: Spec, id: Id): real {
    Aggregate(spec, ChildrenOf(rows, spec, id))
  }

  lemma {:induction false} NumbersSnoc(source: Source, rows: seq<Child>, row: Child)
    ensures Numbers(source, rows + [row]) == Numbers(source, rows) + NumberOf(source, row)
  {
    if rows == [] {
      assert rows + [row] == [row] && [row][1..] == [];
    } else {
      NumbersSnoc(source, rows[1..], row);
      assert (rows + [row])[1..] == rows[1..] + [row];
    }
  }

  lemma {:induction false} ChildrenAppend(rows: seq<Child>, spec: Spec, id: Id, c: Child)
    ensures ChildrenOf(rows + [c], spec, id) ==
      ChildrenOf(rows, spec, id) + if c.parent == Some(id) && spec.criteria(c.columns) then [c] else []
  {
    if rows == [] {
      assert rows + [c] == [c] && [c][1..] == [];
    } else {
      ChildrenAppend(rows[1..], spec, id, c);
      assert (rows + [c])[1..] == rows[1..] + [c];
    }
  }

  // ----- what a rollup is, on the columns themselves ----------------------------------------

  /** The row is a child of `id` that meets the criteria, and has the number `x` to aggregate. */
  predicate Contributes(spec: Spec, c: Child, id: Id, x: real) {
    && c.parent == Some(id) && spec.criteria(c.columns)
    && match spec.source
       case NoField => false
       case Physical(column) => column in c.columns && c.columns[column] == x
       case FormulaField(eval, _) => eval(c.columns) == Number(x)
  }

  /** The same rollup without rounding. */
  function Exact(spec: Spec): Spec { spec.(round := x => x) }

  lemma OwnNumber(spec: Spec, c: Child, id: Id)
    ensures forall x :: Contributes(spec, c, id, x) <==>
      c.parent == Some(id) && spec.criteria(c.columns) && NumberOf(spec.source, c) == [x]
    ensures |NumberOf(spec.source, c)| <= 1
    ensures Sum([]) == 0.0 && forall x :: Sum([x]) == x
  {
    forall x ensures Sum([x]) == x { assert [x][1..] == []; }
  }

  lemma {:induction false} NumbersAreContributions(rows: seq<Child>, spec: Spec, id: Id, x: real)
    ensures x in Numbers(spec.source, ChildrenOf(rows, spec, id))
      <==> exists c :: c in rows && Contributes(spec, c, id, x)
  {
    if rows != [] {
      NumbersAreContributions(rows[1..], spec, id, x);
      var later := ChildrenOf(rows[1..], spec, id);
      assert ([rows[0]] + later)[1..] == later;
      OwnNumber(spec, rows[0], id);
      assert rows[0] in rows && forall c :: c in rows <==> c == rows[0] || c in rows[1..];
      hide NumberOf, Contributes, ChildrenOf;
      assert x in NumberOf(spec.source, rows[0]) <==> NumberOf(spec.source, rows[0]) == [x];
    }
  }

  /** Rounding happens once, at the end, and to formula fields only; without a number to aggregate
      the rollup is 0. */
  lemma RollupIsRounded(rows: seq<Child>, spec: Spec, id: Id)
    ensures RollupOf(rows, spec, id) ==
      if spec.kind != COUNT && spec.source.FormulaField? && exists c, x :: c in rows && Contributes(spec, c, id, x)
      then spec.round(RollupOf(rows, Exact(spec), id)) else RollupOf(rows, Exact(spec), id)
    ensures spec.kind != COUNT && (forall c, x | c in rows :: !Contributes(spec, c, id, x))
      ==> RollupOf(rows, spec, id) == 0.0
  {
    hide Numbers, Sum, Min, Max, Contributes;
    SameChildren(rows, spec, id);
    hide ChildrenOf;
    var xs := Numbers(spec.source, ChildrenOf(rows, spec, id));
    if xs != [] {
      NumbersAreContributions(rows, spec, id, xs[0]);
    }
    forall c, x | c in rows && Contributes(spec, c, id, x) ensures x in xs {
      NumbersAreContributions(rows, spec, id, x);
    }
  }

  lemma {:induction false} SameChildren(rows: seq<Child>, spec: Spec, id: Id)
    ensures ChildrenOf(rows, Exact(spec), id) == ChildrenOf(rows, spec, id)
  {
    if rows != [] {
      SameChildren(rows[1..], spec, id);
    }
  }

  /** A minimum or maximum is the number of some qualifying child, and no other one is beyond it. */
  lemma ExtremeIsAttained(rows: seq<Child>, spec: Spec, id: Id)
    requires (spec.kind == MIN || spec.kind == MAX) && exists c, x :: c in rows && Contributes(spec, c, id, x)
    ensures exists c :: c in rows && Contributes(spec, c, id, RollupOf(rows, Exact(spec), id))
    ensures forall c, x | c in rows && Contributes(spec, c, id, x) ::
      if spec.kind == MIN then RollupOf(rows, Exact(spec), id) <= x else x <= RollupOf(rows, Exact(spec), id)
  {
    hide Numbers, Sum, Min, Max, Contributes;
    SameChildren(rows, spec, id);
    hide ChildrenOf;
    var xs := Numbers(spec.source, ChildrenOf(rows, spec, id));
    forall c, x | c in rows && Contributes(spec, c, id, x) ensures x in xs {
      NumbersAreContributions(rows, spec, id, x);
    }
    MinBounds(xs);
    NumbersAreContributions(rows, spec, id, if spec.kind == MIN then Min(xs) else Max(xs));
  }

  /** One more row adds its number to a sum, whatever its sign, and 1 to a count, if it is a
      qualifying child, and nothing otherwise. */
  lemma RowAddsItsNumber(rows: seq<Child>, spec: Spec, id: Id, c: Child)
    requires spec.kind == SUM || spec.kind == COUNT
    ensures RollupOf([], spec, id) == 0.0
    ensures spec.kind == COUNT ==>
      RollupOf(rows + [c], spec, id) - RollupOf(rows, spec, id)
        == if c.parent == Some(id) && spec.criteria(c.columns) then 1.0 else 0.0
    ensures forall x | spec.kind == SUM && Contributes(spec, c, id, x) ::
      RollupOf(rows + [c], Exact(spec), id) == RollupOf(rows, Exact(spec), id) + x
    ensures spec.kind == SUM && (forall x :: !Contributes(spec, c, id, x)) ==>
      RollupOf(rows + [c], Exact(spec), id) == RollupOf(rows, Exact(spec), id)
  {
    assert RollupOf([], spec, id) == 0.0;
    SameChildren(rows, spec, id);
    SameChildren(rows + [c], spec, id);
    ChildrenAppend(rows, spec, id, c);
    NumbersSnoc(spec.source, ChildrenOf(rows, spec, id), c);
    SumConcat(Numbers(spec.source, ChildrenOf(rows, spec, id)), NumberOf(spec.source, c));
    OwnNumber(spec, c, id);
    hide ChildrenOf, Numbers, NumberOf, Contributes, Sum, Min, Max;
    if c.parent == Some(id) && spec.criteria(c.columns) && NumberOf(spec.source, c) != [] {
      var x := NumberOf(spec.source, c)[0];
      assert NumberOf(spec.source, c) == [x] && Contributes(spec, c, id, x);
    }
    assert ChildrenOf(rows, spec, id) + [] == ChildrenOf(rows, spec, id);
  }

  // ----- single evaluation ----------------------------------------------------------------

  /** SQL's aggregate over a column: NULL when there is no value. */
  function SqlAggregate(kind: Kind, xs: seq<real>): Option<real> {
    if xs == [] then None else Some(Combine(kind, xs))
  }

  method EvaluateRollup(rows: seq<Child>, spec: Spec, id: Id, fails: bool) returns (r: Result<real, RollupError>)
    ensures spec.kind.OtherKind? ==> r == Err(InvalidType)
    ensures !spec.kind.OtherKind? && spec.kind != COUNT && spec.source.NoField? ==> r == Err(FieldRequired)
    ensures !spec.kind.OtherKind? && (spec.kind == COUNT || !spec.source.NoField?) ==>
      r == if fails then Err(QueryFailed) else Ok(RollupOf(rows, spec, id))
  {
    if spec.kind.OtherKind? {
      return Err(InvalidType);
    }
    if spec.kind != COUNT && spec.source.NoField? {
      return Err(FieldRequired);
    }
    if fails {
      return Err(QueryFailed);
    }
    var children := ChildrenOf(rows, spec, id);
    if spec.source.FormulaField? || spec.kind == COUNT {
      if spec.kind == COUNT {
        return Ok(|children| as real);
      }
      var values := FormulaValues(children, spec.source);
      if values == [] {
        return Ok(0.0);
      }
      return Ok(spec.round(Combine(spec.kind, values)));
    }
    var result := SqlAggregate(spec.kind, Numbers(spec.source, children));
    return Ok(match result case Some(x) => x case None => 0.0);
  }

  /** Evaluates the formula on every child row, skipping the rows where it fails or gives None. */
  method FormulaValues(children: seq<Child>, source: Source) returns (values: seq<real>)
    requires source.FormulaField?
    ensures values == Numbers(source, children)
  {
    values := [];
    for i := 0 to |children|
      invariant values == Numbers(source, children[..i])
    {
      NumbersSnoc(source, children[..i], children[i]);
      assert children[..i + 1] == children[..i] + [children[i]];
      var value := source.eval(children[i].columns);
      if value.Number? {
        values := values + [value.x];
      }
    }
    assert children[..|children|] == children;
  }

  // ----- batch evaluation -----------------------------------------------------------------

  /** The distinct truthy identifiers. */
  function Truthy(ids: seq<Id>): (out: set<Id>)
    ensures forall x :: x in out <==> x in ids && x != 0
  {
    set x | x in ids && x != 0
  }

  /** WHERE parent = ANY(ids) AND criteria */
  function ChildrenOfAny(rows: seq<Child>, spec: Spec, ids: set<Id>): (out: seq<Child>)
    ensures forall i | 0 <= i < |out| :: out[i].parent.Some? && out[i].parent.value in ids
  {
    if rows == [] then []
    else
      var later := ChildrenOfAny(rows[1..], spec, ids);
      if rows[0].parent.Some? && rows[0].parent.value in ids && spec.criteria(rows[0].columns)
      then [rows[0]] + later else later
  }

  /** The rows of one parent among already selected ones. */
  function OfParent(rows: seq<Child>, id: Id): seq<Child> {
    if rows == [] then []
    else (if rows[0].parent == Some(id) then [rows[0]] else []) + OfParent(rows[1..], id)
  }

  lemma {:induction false} SelectThenSplit(rows: seq<Child>, spec: Spec, ids: set<Id>, id: Id)
    requires id in ids
    ensures OfParent(ChildrenOfAny(rows, spec, ids), id) == ChildrenOf(rows, spec, id)
  {
    if rows != [] {
      SelectThenSplit(rows[1..], spec, ids, id);
      var later := ChildrenOfAny(rows[1..], spec, ids);
      if rows[0].parent.Some? && rows[0].parent.value in ids && spec.criteria(rows[0].columns) {
        assert ChildrenOfAny(rows, spec, ids)[1..] == later;
      } else {
        assert ChildrenOfAny(rows, spec, ids) == later;
      }
    }
  }

  lemma {:induction false} OfParentAppend(rows: seq<Child>, row: Child, id: Id)
    ensures OfParent(rows + [row], id) == OfParent(rows, id) + if row.parent == Some(id) then [row] else []
  {
    if rows == [] {
      assert rows + [row] == [row] && [row][1..] == [];
    } else {
      OfParentAppend(rows[1..], row, id);
      assert (rows + [row])[1..] == rows[1..] + [row];
    }
  }

  /** The distinct parents that occur in the rows. */
  function ParentsOf(rows: seq<Child>): (out: seq<Id>)
    ensures forall p :: p in out <==> OfParent(rows, p) != []
  {
    if rows == [] then []
    else
      var later := ParentsOf(rows[1..]);
      if rows[0].parent.Some? && rows[0].parent.value !in later then [rows[0].parent.value] + later else later
  }

  /** SQL's aggregate for one parent of the group. */
  function GroupValue(spec: Spec, rows: seq<Child>, p: Id): Option<real> {
    SqlAggregate(spec.kind, Numbers(spec.source, OfParent(rows, p)))
  }

  /** One result row per parent that has a child row, as GROUP BY delivers them. */
  function GroupBy(spec: Spec, rows: seq<Child>): (out: seq<(Id, Option<real>)>)
    ensures forall k | 0 <= k < |out| :: out[k].1 == GroupValue(spec, rows, out[k].0)
    ensures forall p :: OfParent(rows, p) != [] ==> (p, GroupValue(spec, rows, p)) in out
  {
    var parents := ParentsOf(rows);
    var out := seq(|parents|, k requires 0 <= k < |parents| => (parents[k], GroupValue(spec, rows, parents[k])));
    assert forall p | p in parents :: (p, GroupValue(spec, rows, p)) in out by {
      forall p | p in parents ensures (p, GroupValue(spec, rows, p)) in out {
        var k :| 0 <= k < |parents| && parents[k] == p;
        assert out[k] == (p, GroupValue(spec, rows, p));
      }
    }
    out
  }

  /** `bucketed` and `counts` after the given rows. */
  ghost predicate Bucketed(spec: Spec, ids: set<Id>, rows: seq<Child>, buckets: map<Id, seq<real>>, counts: map<Id,
          nat>) {
    && buckets.Keys == ids && counts.Keys == ids
    && (forall p | p in ids :: counts[p] == |OfParent(rows, p)|)
    && (spec.kind != COUNT ==> forall p | p in ids :: buckets[p] == Numbers(spec.source, OfParent(rows, p)))
  }

  lemma BucketedNext(spec: Spec, ids: set<Id>, rows: seq<Child>, child: Child, buckets: map<Id, seq<real>>,
          counts: map<Id, nat>)
    requires Bucketed(spec, ids, rows, buckets, counts) && child.parent.Some? && child.parent.value in ids
    ensures var p := child.parent.value;
      var longer := if spec.kind == COUNT then buckets else buckets[p := buckets[p] + NumberOf(spec.source, child)];
      Bucketed(spec, ids, rows + [child], longer, counts[p := counts[p] + 1])
  {
    hide OfParent, Numbers;
    forall p | p in ids ensures OfParent(rows + [child], p) ==
      (OfParent(rows, p) + if child.parent == Some(p) then [child] else [])
    {
      OfParentAppend(rows, child, p);
    }
    var p := child.parent.value;
    NumbersSnoc(spec.source, OfParent(rows, p), child);
    assert forall q | q in ids && q != p :: OfParent(rows + [child], q) == OfParent(rows, q);
  }

  lemma BucketedStart(spec: Spec, ids: set<Id>)
    ensures Bucketed(spec, ids, [], map id | id in ids :: [], map id | id in ids :: 0)
  {
  }

  /** The bucketing loop over the child rows of all parents. */
  method FillBuckets(children: seq<Child>, spec: Spec, ids: set<Id>)
    returns (buckets: map<Id, seq<real>>, counts: map<Id, nat>)
    requires spec.kind == COUNT || spec.source.FormulaField?
    requires forall i | 0 <= i < |children| :: children[i].parent.Some? && children[i].parent.value in ids
    ensures Bucketed(spec, ids, children, buckets, counts)
  {
    hide Bucketed, NumberOf;
    buckets := map id | id in ids :: [];
    counts := map id | id in ids :: 0;
    BucketedStart(spec, ids);
    assert children[..0] == [];
    for i := 0 to |children|
      invariant buckets.Keys == counts.Keys == ids
      invariant Bucketed(spec, ids, children[..i], buckets, counts)
    {
      BucketedNext(spec, ids, children[..i], children[i], buckets, counts);
      assert children[..i + 1] == children[..i] + [children[i]];
      buckets, counts := AddToBucket(children[i], spec, buckets, counts);
    }
    assert children[..|children|] == children;
  }

  method AddToBucket(child: Child, spec: Spec, buckets: map<Id, seq<real>>, counts: map<Id, nat>)
    returns (buckets': map<Id, seq<real>>, counts': map<Id, nat>)
    requires spec.kind == COUNT || spec.source.FormulaField?
    requires child.parent.Some? && buckets.Keys == counts.Keys
    ensures var p := child.parent.value;
      var longer := if spec.kind == COUNT || p !in buckets then buckets
                    else buckets[p := buckets[p] + NumberOf(spec.source, child)];
      buckets' == longer && counts' == if p in counts then counts[p := counts[p] + 1] else counts
  {
    buckets', counts' := buckets, counts;
    var p := child.parent.value;
    if p !in buckets {
      return;
    }
    counts' := counts[p := counts[p] + 1];
    if spec.kind == COUNT {
      return;
    }
    var value := spec.source.eval(child.columns);
    if value.Number? {
      buckets' := buckets[p := buckets[p] + [value.x]];
    } else {
      assert buckets[p] + [] == buckets[p];
    }
  }

  /** One query for all parents, bucketed in Python: the COUNT and formula path of the batch. */
  method BatchInPython(rows: seq<Child>, spec: Spec, ids: set<Id>) returns (results: map<Id, real>)
    requires Check(spec).None? && (spec.kind == COUNT || spec.source.FormulaField?)
    ensures results.Keys == ids
    ensures forall id | id in ids :: results[id] == RollupOf(rows, spec, id)
  {
    var children := ChildrenOfAny(rows, spec, ids);
    var buckets, counts := FillBuckets(children, spec, ids);
    forall id | id in ids ensures OfParent(children, id) == ChildrenOf(rows, spec, id) {
      SelectThenSplit(rows, spec, ids, id);
    }
    if spec.kind == COUNT {
      return map id | id in ids :: counts[id] as real;
    }
    results := map id | id in ids ::
      if buckets[id] == [] then 0.0 else spec.round(Combine(spec.kind, buckets[id]));
  }

  function OrZero(x: Option<real>): real {
    match x case Some(v) => v case None => 0.0
  }

  /** Physical column: one GROUP BY query, parents without a row keep the default 0. */
  method BatchInSql(rows: seq<Child>, spec: Spec, ids: set<Id>) returns (results: map<Id, real>)
    requires Check(spec).None? && spec.kind != COUNT && spec.source.Physical?
    ensures results.Keys == ids
    ensures forall id | id in ids :: results[id] == RollupOf(rows, spec, id)
  {
    var children := ChildrenOfAny(rows, spec, ids);
    results := FillDefaults(spec, children, GroupBy(spec, children), ids);
    forall id | id in ids ensures results[id] == RollupOf(rows, spec, id) {
      GroupIsRollup(rows, spec, ids, id);
    }
  }

  /** Zero for every parent, overwritten by the delivered groups. */
  method FillDefaults(spec: Spec, children: seq<Child>, groups: seq<(Id, Option<real>)>, ids: set<Id>)
    returns (results: map<Id, real>)
    requires forall k | 0 <= k < |groups| :: groups[k].1 == GroupValue(spec, children, groups[k].0)
    ensures results.Keys == ids
    ensures forall p | p in ids && p !in Firsts(groups) :: results[p] == 0.0
    ensures forall p | p in ids && p in Firsts(groups) :: results[p] == OrZero(GroupValue(spec, children, p))
  {
    hide GroupValue, Firsts;
    results := map id | id in ids :: 0.0;
    NoFirsts();
    assert groups[..0] == [];
    for i := 0 to |groups|
      invariant results.Keys == ids
      invariant forall p | p in ids && p !in Firsts(groups[..i]) :: results[p] == 0.0
      invariant forall p | p in ids && p in Firsts(groups[..i]) :: results[p] == OrZero(GroupValue(spec, children, p))
    {
      FirstsNext(groups, i);
      var (parent, value) := groups[i];
      if parent in results {
        results := results[parent := OrZero(value)];
      }
    }
    assert groups[..|groups|] == groups;
  }

  lemma NoFirsts()
    ensures Firsts([]) == {}
  {
  }

  function Firsts(groups: seq<(Id, Option<real>)>): set<Id> {
    set g | g in groups :: g.0
  }

  lemma FirstsNext(groups: seq<(Id, Option<real>)>, i: nat)
    requires i < |groups|
    ensures Firsts(groups[..i + 1]) == Firsts(groups[..i]) + {groups[i].0}
  {
    assert groups[..i + 1] == groups[..i] + [groups[i]];
  }

  lemma GroupIsRollup(rows: seq<Child>, spec: Spec, ids: set<Id>, id: Id)
    requires id in ids && spec.kind != COUNT && spec.source.Physical?
    ensures RollupOf(rows, spec, id) == OrZero(GroupValue(spec, ChildrenOfAny(rows, spec, ids), id))
    ensures id !in Firsts(GroupBy(spec, ChildrenOfAny(rows, spec, ids))) ==> RollupOf(rows, spec, id) == 0.0
  {
    hide Sum, Min, Max, ChildrenOfAny;
    var children := ChildrenOfAny(rows, spec, ids);
    SelectThenSplit(rows, spec, ids, id);
    if OfParent(children, id) != [] {
      assert (id, GroupValue(spec, children, id)) in GroupBy(spec, children);
    }
  }

  /** When no query fails, the batch holds exactly the distinct truthy identifiers, each with the
      value its single evaluation returns; a failed query yields 0 for all of them, where the
      single evaluation raises. */
  method EvaluateRollupBatch(rows: seq<Child>, spec: Spec, recordIds: seq<Id>, fails: bool)
    returns (r: Result<map<Id, real>, RollupError>)
    ensures spec.kind.OtherKind? ==> r == Err(InvalidType)
    ensures !spec.kind.OtherKind? && spec.kind != COUNT && spec.source.NoField? ==> r == Err(FieldRequired)
    ensures !spec.kind.OtherKind? && (spec.kind == COUNT || !spec.source.NoField?) ==>
      r.Ok? && r.value.Keys == (set id | id in recordIds && id != 0)
    ensures r.Ok? ==> forall id | id in r.value :: r.value[id] == if fails then 0.0 else RollupOf(rows, spec, id)
  {
    if spec.kind.OtherKind? {
      return Err(InvalidType);
    }
    if spec.kind != COUNT && spec.source.NoField? {
      return Err(FieldRequired);
    }
    if recordIds == [] {
      return Ok(map[]);
    }
    var ids := Truthy(recordIds);
    if ids == {} {
      return Ok(map[]);
    }
    var results: map<Id, real>;
    if fails {
      results := map id | id in ids :: 0.0;
    } else if spec.source.FormulaField? || spec.kind == COUNT {
      results := BatchInPython(rows, spec, ids);
    } else {
      results := BatchInSql(rows, spec, ids);
    }
    return Ok(results);
  }
}
