/** Replacing a filter on a rollup of the parent object by a filter on the foreign key
    (`convert_rollup_filters_to_physical` and `_matching_parents_via_aggregation`,
    api/BL/computed_fields.py:409-517, 866-1194), and exactly which rows that keeps right. */
module RollupPushdown {
  import opened Prelude
  import opened Rollup
  import opened Totals

  datatype Comparison = Eq | Ne | Gt | Lt | Ge | Le

  predicate Compare(op: Comparison, a: real, b: real) {
    match op
    case Eq => a == b
    case Ne => a != b
    case Gt => a > b
    case Lt => a < b
    case Ge => a >= b
    case Le => a <= b
  }

  /** The Python comparison of the fallback; a parent without a batch entry compares as None. */
  predicate CompareOptional(op: Comparison, a: Option<real>, b: real) {
    match a case Some(x) => Compare(op, x, b) case None => op == Ne
  }

  const FALLBACK_PARENT_CAP: nat := 5000

  // ----- the aggregate query --------------------------------------------------------------

  /** What the query aggregates for the field; None when it cannot be built. */
  function InSql(source: Source): Option<Source> {
    match source
    case NoField => None
    case Physical(_) => Some(source)
    case FormulaField(_, None) => None
    case FormulaField(_, Some(sql)) => Some(FormulaField(sql, None))
  }

  /** The inlined text fails on some child row, and with it the whole query. */
  predicate QueryFails(rows: seq<Child>, source: Source) {
    source.FormulaField? && source.sql.Some?
    && exists i :: 0 <= i < |rows| && rows[i].parent.Some? && source.sql.value(rows[i].columns).Raises?
  }

  /** The query can be built and does not fail. */
  predicate Aggregable(rows: seq<Child>, spec: Spec) {
    spec.kind == COUNT || (InSql(spec.source).Some? && !QueryFails(rows, spec.source))
  }

  /** The aggregate of SQL's HAVING over all rows of one parent; the rollup's filter criteria
      are not part of the query. */
  function Having(rows: seq<Child>, spec: Spec, p: Id): Option<real>
    requires Aggregable(rows, spec)
  {
    if spec.kind == COUNT then Some(|OfParent(rows, p)| as real)
    else SqlAggregate(spec.kind, Numbers(InSql(spec.source).value, OfParent(rows, p)))
  }

  /** The parent owns a row and has something to aggregate. */
  predicate HasValue(rows: seq<Child>, spec: Spec, p: Id)
    requires Aggregable(rows, spec)
  {
    OfParent(rows, p) != [] && Having(rows, spec, p).Some?
  }

  /** The parent's group passes HAVING. */
  predicate Passes(rows: seq<Child>, spec: Spec, op: Comparison, value: real, p: Id)
    requires Aggregable(rows, spec)
  {
    HasValue(rows, spec, p) && Compare(op, Having(rows, spec, p).value, value)
  }

  /** `_matching_parents_via_aggregation` */
  function MatchingParents(rows: seq<Child>, spec: Spec, op: Comparison, value: real): (out: Option<set<Id>>)
    requires Check(spec).None?
    ensures out.Some? <==> Aggregable(rows, spec)
    ensures out.Some? ==> forall p :: p in out.value <==> Passes(rows, spec, op, value, p)
  {
    if !Aggregable(rows, spec) then None
    else Some(set p | p in ParentsOf(rows) && Passes(rows, spec, op, value, p))
  }

  /** The parents whose own stored column passes the comparison. */
  function StoredMatches(parents: seq<Id>, column: map<Id, real>, op: Comparison, value: real): (out: set<Id>)
    ensures forall p :: p in out <==> p in parents && p in column && Compare(op, column[p], value)
  {
    set p | p in parents && p in column && Compare(op, column[p], value)
  }

  // ----- the physical filters -------------------------------------------------------------

  datatype ColumnFilter = In(ids: set<Id>) | IsNull | IsNotNull

  predicate Satisfies(f: ColumnFilter, column: Option<Id>) {
    match f
    case In(ids) => column.Some? && column.value in ids
    case IsNull => column.None?
    case IsNotNull => column.Some?
  }

  predicate Kept(filters: seq<ColumnFilter>, column: Option<Id>) {
    forall f | f in filters :: Satisfies(f, column)
  }

  /** What the conversion of one filter yields: filters for SQL, the comparison itself on a stored
      column, or the filter handed back. */
  datatype Converted = Pushed(filters: seq<ColumnFilter>) | OnColumn | Leftover

  /** The filters for a set of matching identifiers: membership, or a contradictory pair. */
  function Emit(ids: set<Id>): seq<ColumnFilter> {
    if ids == {} then [IsNull, IsNotNull] else [In(ids)]
  }

  lemma EmitMeansMembership(ids: set<Id>, column: Option<Id>)
    ensures Kept(Emit(ids), column) <==> column.Some? && column.value in ids
  {
    if ids == {} {
      assert IsNull in Emit(ids) && IsNotNull in Emit(ids);
    } else {
      assert In(ids) in Emit(ids);
    }
  }

  /** The fallback recomputes every parent's rollup unless there are too many of them, or none. */
  predicate FallbackRuns(parents: seq<Id>) { 0 < |parents| <= FALLBACK_PARENT_CAP }

  /** What the batch reports for a parent; `fails` says that its query failed, which makes it 0. */
  function Reported(rows: seq<Child>, spec: Spec, fails: bool, p: Id): Option<real> {
    if p == 0 then None else Some(if fails then 0.0 else RollupOf(rows, spec, p))
  }

  /** The fallback's verdict on one parent. */
  predicate Recomputed(rows: seq<Child>, spec: Spec, fails: bool, op: Comparison, value: real, p: Id) {
    CompareOptional(op, Reported(rows, spec, fails, p), value)
  }

  function RecomputedAmong(parents: seq<Id>, rows: seq<Child>, spec: Spec, fails: bool, op: Comparison, value: real)
    : (out: set<Id>)
    ensures forall p :: p in out <==> p in parents && Recomputed(rows, spec, fails, op, value, p)
  {
    set p | p in parents && Recomputed(rows, spec, fails, op, value, p)
  }

  /** What the SQL paths of a dotted filter match: the aggregate query, or else the parent's stored
      column, if there is one. */
  function SqlMatches(rows: seq<Child>, parents: seq<Id>, column: Option<map<Id, real>>, spec: Spec, op: Comparison,
          value: real)
    : (out: Option<set<Id>>)
    requires Check(spec).None?
  {
    var matching := MatchingParents(rows, spec, op, value);
    if matching.None? && column.Some? then Some(StoredMatches(parents, column.value, op, value)) else matching
  }

  /** No parent matched and the fallback is taken. */
  predicate FallbackTaken(rows: seq<Child>, parents: seq<Id>, column: Option<map<Id, real>>, spec: Spec,
          op: Comparison, value: real)
    requires Check(spec).None?
  {
    SqlMatches(rows, parents, column, spec, op, value) in {None, Some({})} && FallbackRuns(parents)
  }

  /** The parents the conversion of a dotted filter settles on. */
  function Settled(rows: seq<Child>, parents: seq<Id>, column: Option<map<Id, real>>, spec: Spec, fails: bool,
          op: Comparison, value: real)
    : Option<set<Id>>
    requires Check(spec).None?
  {
    if FallbackTaken(rows, parents, column, spec, op, value)
    then Some(RecomputedAmong(parents, rows, spec, fails, op, value))
    else SqlMatches(rows, parents, column, spec, op, value)
  }

  function ConvertedTo(ids: Option<set<Id>>): Converted {
    match ids case None => Leftover case Some(s) => Pushed(Emit(s))
  }

  /** A filter such as `invoice.total > 5` on a report over another object. */
  method ConvertRollupFilter(rows: seq<Child>, parents: seq<Id>, column: Option<map<Id, real>>, spec: Spec,
          fails: bool, op: Comparison, value: real)
    returns (r: Converted)
    requires Check(spec).None?
    ensures r == ConvertedTo(Settled(rows, parents, column, spec, fails, op, value))
  {
    hide Aggregable, Passes, RollupOf, Recomputed;
    var matching := MatchingParents(rows, spec, op, value);
    if matching.None? && column.Some? {
      matching := Some(StoredMatches(parents, column.value, op, value));
    }
    if matching.None? || matching.value == {} {
      var all := if |parents| > FALLBACK_PARENT_CAP then [] else parents;
      if all != [] {
        var ids := Recompute(rows, all, spec, fails, op, value);
        matching := Some(ids);
      }
    }
    if matching.None? {
      return Leftover;
    }
    if matching.value == {} {
      return Pushed([IsNull, IsNotNull]);
    }
    return Pushed([In(matching.value)]);
  }

  /** The parents whose batch-evaluated rollup passes the comparison. */
  method Recompute(rows: seq<Child>, all: seq<Id>, spec: Spec, fails: bool, op: Comparison, value: real)
    returns (ids: set<Id>)
    requires Check(spec).None?
    ensures ids == RecomputedAmong(all, rows, spec, fails, op, value)
  {
    hide RollupOf;
    var values := EvaluateRollupBatch(rows, spec, all, fails);
    var matched: seq<Id> := [];
    for i := 0 to |all|
      invariant forall p :: p in matched <==> p in all[..i] && Recomputed(rows, spec, fails, op, value, p)
    {
      var p := all[i];
      assert all[..i + 1] == all[..i] + [p];
      var v := if p in values.value then Some(values.value[p]) else None;
      if CompareOptional(op, v, value) {
        matched := matched + [p];
      }
    }
    assert all[..|all|] == all;
    ids := set p | p in matched;
    ghost var recomputed := RecomputedAmong(all, rows, spec, fails, op, value);
    assert forall p :: p in ids <==> p in recomputed;
  }

  /** A bare filter such as `total > 5` on a report over the parents: the comparison itself if the
      rollup is a stored column, else membership of the parent's own id; no fallback. */
  method ConvertBareFilter(rows: seq<Child>, column: Option<map<Id, real>>, spec: Spec, op: Comparison, value: real)
    returns (r: Converted)
    requires Check(spec).None?
    ensures r == if column.Some? then OnColumn else ConvertedTo(MatchingParents(rows, spec, op, value))
  {
    if column.Some? {
      return OnColumn;
    }
    var matching := MatchingParents(rows, spec, op, value);
    if matching.None? {
      return Leftover;
    }
    if matching.value == {} {
      return Pushed([IsNull, IsNotNull]);
    }
    return Pushed([In(matching.value)]);
  }

  // ----- when the pushed filter is right, on any table ----------------------------------------

  /** The filters emitted for `ids` keep a row of parent `p` just if p's rollup passes the test. */
  predicate Right(ids: set<Id>, rows: seq<Child>, spec: Spec, op: Comparison, value: real, p: Id) {
    Kept(Emit(ids), Some(p)) <==> Compare(op, RollupOf(rows, spec, p), value)
  }

  /** SQL selects parent `p`, by its group or by its stored column. */
  predicate Selects(rows: seq<Child>, column: Option<map<Id, real>>, spec: Spec, op: Comparison, value: real, p: Id) {
    if Aggregable(rows, spec) then Passes(rows, spec, op, value, p)
    else column.Some? && p in column.value && Compare(op, column.value[p], value)
  }

  /** Whatever the criteria: a row's parent is treated as its rollup demands exactly if the fallback
      was taken, its query failing only where 0 compares like the rollup, or SQL's own verdict on
      that parent is the rollup's. */
  lemma DottedFilterExactlyWhen(rows: seq<Child>, parents: seq<Id>, column: Option<map<Id, real>>, spec: Spec,
                                fails: bool, op: Comparison, value: real, p: Id)
    requires Check(spec).None? && p != 0 && p in parents
    ensures Settled(rows, parents, column, spec, fails, op, value).Some? <==>
      Aggregable(rows, spec) || column.Some? || |parents| <= 5000
    ensures Settled(rows, parents, column, spec, fails, op, value).Some? ==>
      (Right(Settled(rows, parents, column, spec, fails, op, value).value, rows, spec, op, value, p) <==>
        if FallbackTaken(rows, parents, column, spec, op, value)
        then fails ==> (Compare(op, 0.0, value) <==> Compare(op, RollupOf(rows, spec, p), value))
        else Selects(rows, column, spec, op, value, p) <==> Compare(op, RollupOf(rows, spec, p), value))
  {
    hide Aggregable, Passes, RollupOf;
    var settled := Settled(rows, parents, column, spec, fails, op, value);
    if settled.Some? {
      EmitMeansMembership(settled.value, Some(p));
    }
  }

  /** A bare filter has no fallback. */
  lemma BareFilterExactlyWhen(rows: seq<Child>, spec: Spec, op: Comparison, value: real, p: Id)
    requires Check(spec).None? && Aggregable(rows, spec)
    ensures Right(MatchingParents(rows, spec, op, value).value, rows, spec, op, value, p)
      <==> (Passes(rows, spec, op, value, p) <==> Compare(op, RollupOf(rows, spec, p), value))
  {
    EmitMeansMembership(MatchingParents(rows, spec, op, value).value, Some(p));
  }

  // ----- the pieces, one by one -----------------------------------------------------------------

  /** Each comparison is another one reversed or negated, and numbers are always comparable. */
  lemma ComparisonLaws(a: real, b: real)
    ensures Compare(Eq, a, b) <==> a == b
    ensures Compare(Ne, a, b) <==> !Compare(Eq, a, b)
    ensures Compare(Le, a, b) <==> !Compare(Gt, a, b)
    ensures Compare(Ge, a, b) <==> !Compare(Lt, a, b)
    ensures Compare(Lt, a, b) <==> Compare(Gt, b, a)
    ensures Compare(Gt, a, b) <==> b < a
  {
  }

  /** The aggregate query gives no answer exactly if the field is a formula that cannot be written in
      SQL, or that fails there on a row with a parent. */
  lemma NoQueryExactlyWhen(rows: seq<Child>, spec: Spec, op: Comparison, value: real)
    requires Check(spec).None?
    ensures MatchingParents(rows, spec, op, value) == None <==>
      spec.kind != COUNT && spec.source.FormulaField?
      && (spec.source.sql.None?
          || exists c :: c in rows && c.parent.Some? && spec.source.sql.value(c.columns) == Raises)
  {
    if c :| spec.source.FormulaField? && spec.source.sql.Some?
            && c in rows && c.parent.Some? && spec.source.sql.value(c.columns) == Raises {
      var i :| 0 <= i < |rows| && rows[i] == c;
    }
  }

  /** What the query reads: the column itself, or the formula's SQL text. */
  function ReadInSql(spec: Spec): Spec {
    var inlined := spec.source.FormulaField? && spec.source.sql.Some?;
    Spec(spec.kind, if inlined then FormulaField(spec.source.sql.value, None) else spec.source, columns => true, x => x)
  }

  lemma {:induction false} AllChildren(rows: seq<Child>, spec: Spec, p: Id)
    requires forall columns :: spec.criteria(columns)
    ensures ChildrenOf(rows, spec, p) == OfParent(rows, p)
  {
    if rows != [] {
      AllChildren(rows[1..], spec, p);
    }
  }

  /** The query's aggregate is the unrounded rollup of all children, without any criteria, of what SQL
      reads; there is one exactly if some child contributes to it. */
  lemma HavingIsExactRollup(rows: seq<Child>, spec: Spec, p: Id)
    requires Check(spec).None? && Aggregable(rows, spec)
    ensures HasValue(rows, spec, p) <==>
      if spec.kind == COUNT then exists c :: c in rows && c.parent == Some(p)
      else exists c, x :: c in rows && Contributes(ReadInSql(spec), c, p, x)
    ensures HasValue(rows, spec, p) ==> Having(rows, spec, p) == Some(RollupOf(rows, ReadInSql(spec), p))
  {
    hide Numbers, Sum, Min, Max, Contributes;
    var sql := ReadInSql(spec);
    AllChildren(rows, sql, p);
    ChildrenAreRows(rows, p);
    var xs := Numbers(sql.source, OfParent(rows, p));
    if xs != [] {
      NumbersAreContributions(rows, sql, p, xs[0]);
    }
    forall c, x | c in rows && Contributes(sql, c, p, x) ensures x in xs {
      NumbersAreContributions(rows, sql, p, x);
    }
    NumbersOfNone(sql.source);
    hide OfParent, ChildrenOf;
  }

  lemma NumbersOfNone(source: Source)
    ensures Numbers(source, []) == []
  {
  }

  lemma {:induction false} ChildrenAreRows(rows: seq<Child>, p: Id)
    ensures OfParent(rows, p) != [] <==> exists c :: c in rows && c.parent == Some(p)
  {
    if rows != [] {
      ChildrenAreRows(rows[1..], p);
      assert forall c :: c in rows <==> c == rows[0] || c in rows[1..];
    }
  }

  /** A rollup that SQL cannot aggregate but that is a stored column: the column decides if it selects
      any parent, or if there are more than 5000; else each parent's rollup does. */
  lemma StoredColumnDecides(rows: seq<Child>, parents: seq<Id>, column: map<Id, real>, spec: Spec, op: Comparison,
          value: real, p: Id)
    requires Check(spec).None? && !Aggregable(rows, spec) && p in parents && p != 0
    ensures var settled := Settled(rows, parents, Some(column), spec, false, op, value);
      settled.Some? && (p in settled.value <==>
        if |parents| > 5000 || exists q :: q in parents && q in column && Compare(op, column[q], value)
        then p in column && Compare(op, column[p], value)
        else Compare(op, RollupOf(rows, spec, p), value))
  {
    hide RollupOf, Compare, Aggregable;
    var stored := StoredMatches(parents, column, op, value);
    if q :| q in parents && q in column && Compare(op, column[q], value) {
      assert q in stored;
    } else {
      assert forall q: Id :: q !in stored;
      assert stored == {};
    }
  }

  /** A falsy parent identifier has no rollup: the fallback selects it for `!=` alone. */
  lemma FalsyParent(rows: seq<Child>, parents: seq<Id>, column: Option<map<Id, real>>, spec: Spec, fails: bool,
          op: Comparison, value: real)
    requires Check(spec).None? && 0 in parents && FallbackTaken(rows, parents, column, spec, op, value)
    ensures Settled(rows, parents, column, spec, fails, op, value).Some?
    ensures 0 in Settled(rows, parents, column, spec, fails, op, value).value <==> op == Ne
  {
    hide RollupOf, Compare, FallbackTaken;
  }

  // ----- what SQL's verdict depends on --------------------------------------------------------

  /** All children of the parent meet the criteria, and on them SQL reads the field's own values. */
  predicate SeesRollup(rows: seq<Child>, spec: Spec, p: Id)
    requires Aggregable(rows, spec)
  {
    var own := OfParent(rows, p);
    ChildrenOf(rows, spec, p) == own
    && (spec.kind != COUNT ==> Numbers(InSql(spec.source).value, own) == Numbers(spec.source, own))
  }

  /** What the evaluated rollup makes of the aggregate: for formula fields it is rounded. */
  function Shown(spec: Spec, x: real): real {
    if spec.kind != COUNT && spec.source.FormulaField? then spec.round(x) else x
  }

  /** Where SQL sees what the rollup sees: with a value to aggregate the verdict is right exactly if
      rounding does not carry it over the limit, without one exactly if rollup 0 fails the test. */
  lemma VerdictRightWhen(rows: seq<Child>, spec: Spec, op: Comparison, value: real, p: Id)
    requires Check(spec).None? && Aggregable(rows, spec) && SeesRollup(rows, spec, p)
    ensures (Passes(rows, spec, op, value, p) <==> Compare(op, RollupOf(rows, spec, p), value)) <==>
      if HasValue(rows, spec, p)
      then var x := Having(rows, spec, p).value; Compare(op, x, value) <==> Compare(op, Shown(spec, x), value)
      else !Compare(op, 0.0, value)
  {
    hide Compare, OfParent, ChildrenOf, Sum, Min, Max;
  }

  /** So for a plain column or a count, whose children all meet the criteria, and when no query
      fails, the dotted filter is right exactly if the parent has something to aggregate, or rollup
      0 fails the comparison anyway, or nothing matched at all and the fallback was taken. */
  lemma PushdownExactlyWhen(rows: seq<Child>, parents: seq<Id>, column: Option<map<Id, real>>, spec: Spec,
                            op: Comparison, value: real, p: Id)
    requires Check(spec).None? && (spec.kind == COUNT || spec.source.Physical?)
    requires ChildrenOf(rows, spec, p) == OfParent(rows, p) && p != 0 && p in parents
    ensures Settled(rows, parents, column, spec, false, op, value).Some?
    ensures Right(Settled(rows, parents, column, spec, false, op, value).value, rows, spec, op, value, p)
      <==> (HasValue(rows, spec, p) || !Compare(op, 0.0, value)
            || (MatchingParents(rows, spec, op, value) == Some({}) && |parents| <= 5000))
  {
    hide Compare, OfParent, ChildrenOf, Numbers, Having, HasValue, RollupOf, Right;
    DottedFilterExactlyWhen(rows, parents, column, spec, false, op, value, p);
    VerdictRightWhen(rows, spec, op, value, p);
  }

  /** On a report over the summarised object itself, with the aggregated column filled in, every
      row is kept or dropped as its own parent's rollup demands. */
  lemma PushdownOnSummarizedObject(rows: seq<Child>, parents: seq<Id>, column: Option<map<Id, real>>, spec: Spec,
                                   op: Comparison, value: real, i: nat)
    requires Check(spec).None? && (spec.kind == COUNT || spec.source.Physical?)
    requires i < |rows| && rows[i].parent.Some? && rows[i].parent.value != 0 && rows[i].parent.value in parents
    requires ChildrenOf(rows, spec, rows[i].parent.value) == OfParent(rows, rows[i].parent.value)
    requires spec.kind != COUNT ==> spec.source.column in rows[i].columns
    ensures Settled(rows, parents, column, spec, false, op, value).Some?
    ensures var ids := Settled(rows, parents, column, spec, false, op, value).value;
      Right(ids, rows, spec, op, value, rows[i].parent.value)
  {
    RowIsOfParent(rows, spec.source, i);
    PushdownExactlyWhen(rows, parents, column, spec, op, value, rows[i].parent.value);
  }

  lemma {:induction false} RowIsOfParent(rows: seq<Child>, source: Source, i: nat)
    requires i < |rows| && rows[i].parent.Some?
    ensures OfParent(rows, rows[i].parent.value) != []
    ensures source.Physical? && source.column in rows[i].columns
      ==> Numbers(source, OfParent(rows, rows[i].parent.value)) != []
  {
    var p := rows[i].parent.value;
    if i == 0 {
      assert OfParent(rows, p)[0] == rows[0];
    } else {
      RowIsOfParent(rows[1..], source, i - 1);
      var later := OfParent(rows[1..], p);
      if rows[0].parent == Some(p) {
        assert OfParent(rows, p)[1..] == later;
      } else {
        assert OfParent(rows, p) == later;
      }
    }
  }

  /** A formula that SQL cannot aggregate, of a rollup that is no stored column: the fallback
      recomputes every parent, so each is treated rightly; with too many parents the filter is
      handed back instead. */
  lemma FormulaRollupRight(rows: seq<Child>, parents: seq<Id>, spec: Spec, op: Comparison, value: real, p: Id)
    requires Check(spec).None? && !Aggregable(rows, spec) && p != 0 && p in parents
    ensures Settled(rows, parents, None, spec, false, op, value).Some? <==> |parents| <= 5000
    ensures |parents| <= 5000 ==>
      Right(Settled(rows, parents, None, spec, false, op, value).value, rows, spec, op, value, p)
  {
    DottedFilterExactlyWhen(rows, parents, None, spec, false, op, value, p);
  }

  // ----- filter criteria ------------------------------------------------------------------------

  /** SQL is right about a parent for every comparison exactly if its aggregate is the rollup. */
  lemma RightForEveryComparison(rows: seq<Child>, spec: Spec, p: Id)
    requires Check(spec).None? && Aggregable(rows, spec)
    ensures (forall op, value :: Passes(rows, spec, op, value, p) <==> Compare(op, RollupOf(rows, spec, p), value)) <==>
      HasValue(rows, spec, p) && Having(rows, spec, p) == Some(RollupOf(rows, spec, p))
  {
    hide RollupOf, Having;
    var r := RollupOf(rows, spec, p);
    assert Compare(Eq, r, r);
    if Passes(rows, spec, Eq, r, p) {
      assert Having(rows, spec, p) == Some(r);
    }
  }

  /** The parent's children that the criteria exclude. */
  function Excluded(rows: seq<Child>, spec: Spec, p: Id): seq<Child> {
    if rows == [] then []
    else
      var later := Excluded(rows[1..], spec, p);
      if rows[0].parent == Some(p) && !spec.criteria(rows[0].columns) then [rows[0]] + later else later
  }

  lemma NumbersCons(source: Source, row: Child, rows: seq<Child>)
    ensures Numbers(source, [row] + rows) == NumberOf(source, row) + Numbers(source, rows)
  {
    assert ([row] + rows)[1..] == rows;
  }

  lemma SumOfNone()
    ensures Sum([]) == 0.0
  {
  }

  lemma {:induction false} CriteriaSplit(rows: seq<Child>, spec: Spec, p: Id)
    ensures |OfParent(rows, p)| == |ChildrenOf(rows, spec, p)| + |Excluded(rows, spec, p)|
    ensures var all := Numbers(spec.source, OfParent(rows, p));
      var kept, out := Numbers(spec.source, ChildrenOf(rows, spec, p)), Numbers(spec.source, Excluded(rows, spec, p));
      Sum(all) == Sum(kept) + Sum(out) && forall x :: x in all <==> x in kept || x in out
  {
    hide Min, Max, Sum, NumberOf;
    if rows == [] {
      assert Sum([]) == 0.0 by { SumOfNone(); }
    } else {
      CriteriaSplit(rows[1..], spec, p);
      var n, row := NumberOf(spec.source, rows[0]), [rows[0]];
      var all, kept, out := OfParent(rows[1..], p), ChildrenOf(rows[1..], spec, p), Excluded(rows[1..], spec, p);
      if rows[0].parent == Some(p) {
        NumbersCons(spec.source, rows[0], all);
        SumConcat(n, Numbers(spec.source, all));
        assert OfParent(rows, p) == row + all;
        if spec.criteria(rows[0].columns) {
          NumbersCons(spec.source, rows[0], kept);
          SumConcat(n, Numbers(spec.source, kept));
          assert ChildrenOf(rows, spec, p) == row + kept && Excluded(rows, spec, p) == out;
        } else {
          NumbersCons(spec.source, rows[0], out);
          SumConcat(n, Numbers(spec.source, out));
          assert ChildrenOf(rows, spec, p) == kept && Excluded(rows, spec, p) == row + out;
        }
      } else {
        assert OfParent(rows, p) == all && ChildrenOf(rows, spec, p) == kept && Excluded(rows, spec, p) == out;
      }
    }
  }

  /** SQL's aggregate ignores the criteria.  It is the rollup's value exactly if what they exclude
      does not matter: no child for a count, numbers that add up to 0 for a sum, none beyond the
      qualifying ones for a minimum or maximum (beyond the default 0, if none qualifies). */
  predicate ExclusionHarmless(rows: seq<Child>, spec: Spec, p: Id) {
    var kept, out := Numbers(spec.source, ChildrenOf(rows, spec, p)), Numbers(spec.source, Excluded(rows, spec, p));
    match spec.kind
    case COUNT => Excluded(rows, spec, p) == []
    case MIN => if kept == [] then out != [] && Min(out) == 0.0 else forall x | x in out :: Min(kept) <= x
    case MAX => if kept == [] then out != [] && Max(out) == 0.0 else forall x | x in out :: x <= Max(kept)
    case _ => Sum(out) == 0.0
  }

  lemma HavingIsRollupWhen(rows: seq<Child>, spec: Spec, p: Id)
    requires Check(spec).None? && (spec.kind == COUNT || spec.source.Physical?) && HasValue(rows, spec, p)
    ensures Having(rows, spec, p) == Some(RollupOf(rows, spec, p)) <==> ExclusionHarmless(rows, spec, p)
  {
    hide OfParent, ChildrenOf, Excluded, Numbers, Sum, Min, Max;
    CriteriaSplit(rows, spec, p);
    SumOfNone();
    if spec.kind.MIN? || spec.kind.MAX? {
      ExtremesOfParts(Numbers(spec.source, OfParent(rows, p)), Numbers(spec.source, ChildrenOf(rows, spec, p)),
                      Numbers(spec.source, Excluded(rows, spec, p)));
    }
  }

  lemma ExtremesOfParts(all: seq<real>, kept: seq<real>, out: seq<real>)
    requires all != [] && forall x :: x in all <==> x in kept || x in out
    ensures kept == [] ==> out != [] && Min(out) == Min(all) && Max(out) == Max(all)
    ensures kept != [] ==> (Min(all) == Min(kept) <==> forall x | x in out :: Min(kept) <= x)
    ensures kept != [] ==> (Max(all) == Max(kept) <==> forall x | x in out :: x <= Max(kept))
  {
    hide Min, Max;
    MinBounds(all);
    if kept == [] {
      var x := all[0];
      assert x in all;
      assert x in out;
      MinBounds(out);
    } else {
      MinBounds(kept);
    }
  }

  /** The limit lies between the two numbers, in the sense of the comparison. */
  predicate Between(op: Comparison, a: real, b: real, limit: real) {
    var lo, hi := if a <= b then a else b, if a <= b then b else a;
    match op
    case Eq => a == limit || b == limit
    case Ne => a == limit || b == limit
    case Gt => lo <= limit < hi
    case Le => lo <= limit < hi
    case Lt => lo < limit <= hi
    case Ge => lo < limit <= hi
  }

  lemma ComparesAlike(op: Comparison, a: real, b: real, limit: real)
    ensures (Compare(op, a, limit) <==> Compare(op, b, limit)) <==> a == b || !Between(op, a, b, limit)
  {
  }

  /** What the excluded children add to a count or a sum. */
  function ExcludedAmount(rows: seq<Child>, spec: Spec, p: Id): real {
    if spec.kind == COUNT then |Excluded(rows, spec, p)| as real
    else Sum(Numbers(spec.source, Excluded(rows, spec, p)))
  }

  /** For one comparison and limit: SQL is right about a count or sum exactly if the excluded children
      add nothing, or the limit does not lie between the aggregate with and without them; and, with
      nothing to aggregate at all, exactly if 0 fails the comparison. */
  lemma VerdictDespiteCriteria(rows: seq<Child>, spec: Spec, op: Comparison, value: real, p: Id)
    requires spec.kind == COUNT || (spec.kind == SUM && spec.source.Physical?)
    ensures (Passes(rows, spec, op, value, p) <==> Compare(op, RollupOf(rows, spec, p), value)) <==>
      if HasValue(rows, spec, p)
      then var x, out := Having(rows, spec, p).value, ExcludedAmount(rows, spec, p);
        out == 0.0 || !Between(op, x, x - out, value)
      else !Compare(op, 0.0, value)
  {
    CriteriaSplit(rows, spec, p);
    SumOfNone();
    if HasValue(rows, spec, p) {
      ComparesAlike(op, Having(rows, spec, p).value, RollupOf(rows, spec, p), value);
    } else {
      NothingKept(rows, spec, p);
    }
    hide Between, Compare, OfParent, ChildrenOf, Excluded, Numbers, Sum, Min, Max;
  }

  lemma NothingKept(rows: seq<Child>, spec: Spec, p: Id)
    requires (spec.kind == COUNT || spec.source.Physical?) && !HasValue(rows, spec, p)
    ensures RollupOf(rows, spec, p) == 0.0
  {
    CriteriaSplit(rows, spec, p);
    hide ChildrenOf, Excluded, Sum, Min, Max;
    PartsOfNone(Numbers(spec.source, OfParent(rows, p)), Numbers(spec.source, ChildrenOf(rows, spec, p)),
                Numbers(spec.source, Excluded(rows, spec, p)));
  }

  lemma PartsOfNone(all: seq<real>, kept: seq<real>, out: seq<real>)
    requires forall x :: x in all <==> x in kept || x in out
    ensures all == [] ==> kept == []
  {
    if kept != [] {
      var x := kept[0];
      assert x in kept;
      assert x in all;
    }
  }

  // ----- concrete failures ----------------------------------------------------------------

  /** One child row, of parent 1. */
  lemma LoneChild(c: Child, spec: Spec, q: Id)
    requires c.parent == Some(1)
    ensures OfParent([c], q) == (if q == 1 then [c] else [])
    ensures ChildrenOf([c], spec, q) == if q == 1 && spec.criteria(c.columns) then [c] else []
    ensures forall source :: Numbers(source, [c]) == NumberOf(source, c) && Numbers(source, []) == []
  {
    assert [c][1..] == [];
  }

  function SumOf(source: Source, round: real -> real): Spec { Spec(SUM, source, columns => true, round) }

  /** `SUM(amount) < 10`: parent 2 has no child, so its rollup is 0, but parent 1 has matched. */
  lemma ChildlessParentLost()
    ensures var spec := SumOf(Source.Physical("amount"), x => x);
      var rows := [Child(Some(1), map["amount" := 6.0])];
      var settled := Settled(rows, [1, 2], None, spec, false, Lt, 10.0);
      settled.Some? && Compare(Lt, RollupOf(rows, spec, 2), 10.0) && !Right(settled.value, rows, spec, Lt, 10.0, 2)
  {
    var spec, c := SumOf(Source.Physical("amount"), x => x), Child(Some(1), map["amount" := 6.0]);
    LoneChild(c, spec, 1);
    LoneChild(c, spec, 2);
    assert [6.0][1..] == [] && Having([c], spec, 1) == Some(6.0);
    assert Passes([c], spec, Lt, 10.0, 1);
    PushdownExactlyWhen([c], [1, 2], None, spec, Lt, 10.0, 2);
  }

  function Times(columns: map<string, real>): Eval {
    if "quantity" in columns && "unit_price" in columns
    then Number(columns["quantity"] * columns["unit_price"]) else Nothing
  }

  /** `line_total = quantity * unit_price`, which SQL can inline */
  function LineTotal(): Source { FormulaField(Times, Some(Times)) }

  lemma SumOfOne(x: real)
    ensures Sum([x]) == x
  {
    assert [x][1..] == [];
  }

  lemma OneLineTotal(quantity: real, price: real, round: real -> real, op: Comparison, value: real)
    requires Compare(op, quantity * price, value)
    ensures var spec := SumOf(LineTotal(), round);
      var c := Child(Some(1), map["quantity" := quantity, "unit_price" := price]);
      Aggregable([c], spec) && SeesRollup([c], spec, 1) && SeesRollup([c], spec, 2)
      && Having([c], spec, 1) == Some(quantity * price) && RollupOf([c], spec, 1) == round(quantity * price)
      && !HasValue([c], spec, 2) && RollupOf([c], spec, 2) == 0.0
      && (forall p :: Passes([c], spec, op, value, p) <==> p == 1)
  {
    var spec, c := SumOf(LineTotal(), round), Child(Some(1), map["quantity" := quantity, "unit_price" := price]);
    forall q { LoneChild(c, spec, q); }
    var x := quantity * price;
    assert c.columns["quantity"] == quantity && c.columns["unit_price"] == price && Times(c.columns) == Number(x);
    assert NumberOf(InSql(spec.source).value, c) == [x];
    SumOfOne(x);
    assert Having([c], spec, 1) == Some(quantity * price);
  }

  /** `SUM(line_total) < 10`: the same happens to a formula that SQL can inline. */
  lemma InlinedFormulaLosesChildless()
    ensures var spec := SumOf(LineTotal(), x => x);
      var rows := [Child(Some(1), map["quantity" := 2.0, "unit_price" := 3.0])];
      var settled := Settled(rows, [1, 2], None, spec, false, Lt, 10.0);
      settled.Some? && Compare(Lt, RollupOf(rows, spec, 2), 10.0) && !Right(settled.value, rows, spec, Lt, 10.0, 2)
  {
    var spec, rows := SumOf(LineTotal(), x => x), [Child(Some(1), map["quantity" := 2.0, "unit_price" := 3.0])];
    OneLineTotal(2.0, 3.0, x => x, Lt, 10.0);
    hide Passes, RollupOf, Aggregable, SeesRollup, HasValue, Having, SumOf;
    DottedFilterExactlyWhen(rows, [1, 2], None, spec, false, Lt, 10.0, 2);
    assert 1 in MatchingParents(rows, spec, Lt, 10.0).value;
  }

  function Cents(x: real): real { (100.0 * x + 0.5).Floor as real / 100.0 }

  lemma CentsOfExample()
    ensures Cents(1.0 * 5.004) == 5.0
  {
    assert 100.0 * (1.0 * 5.004) + 0.5 == 500.9 && 500.9.Floor == 500;
  }

  /** `SUM(line_total) > 5`: SQL compares 5.004, the evaluated rollup is 5.00. */
  lemma InlinedFormulaIsNotRounded()
    ensures var spec := SumOf(LineTotal(), Cents);
      var rows := [Child(Some(1), map["quantity" := 1.0, "unit_price" := 5.004])];
      var settled := Settled(rows, [1], None, spec, false, Gt, 5.0);
      settled.Some? && RollupOf(rows, spec, 1) == 5.0 && !Right(settled.value, rows, spec, Gt, 5.0, 1)
  {
    var spec, rows := SumOf(LineTotal(), Cents), [Child(Some(1), map["quantity" := 1.0, "unit_price" := 5.004])];
    hide Cents;
    CentsOfExample();
    OneLineTotal(1.0, 5.004, Cents, Gt, 5.0);
    hide Passes, RollupOf, Aggregable, SeesRollup, HasValue, Having, SumOf;
    DottedFilterExactlyWhen(rows, [1], None, spec, false, Gt, 5.0, 1);
    assert 1 in MatchingParents(rows, spec, Gt, 5.0).value;
  }

  /** A parent whose only child the criteria exclude is still kept for the child's value. */
  lemma PushdownIgnoresCriteria()
    ensures var spec := Spec(SUM, Source.Physical("amount"), columns => false, x => x);
      var rows := [Child(Some(1), map["amount" := 7.0])];
      var settled := Settled(rows, [1], None, spec, false, Gt, 5.0);
      settled.Some? && RollupOf(rows, spec, 1) == 0.0 && !Right(settled.value, rows, spec, Gt, 5.0, 1)
  {
    var spec, c := Spec(SUM, Source.Physical("amount"), columns => false, x => x), Child(Some(1), map["amount" := 7.0]);
    LoneChild(c, spec, 1);
    assert [7.0][1..] == [] && Having([c], spec, 1) == Some(7.0);
    assert Passes([c], spec, Gt, 5.0, 1);
    DottedFilterExactlyWhen([c], [1], None, spec, false, Gt, 5.0, 1);
    assert 1 in MatchingParents([c], spec, Gt, 5.0).value;
  }
}
