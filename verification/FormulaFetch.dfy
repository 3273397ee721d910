/** Which columns a report fetches so that its formulas can be computed afterwards
    (`process_computed_fields_for_report`, api/BL/computed_fields.py:550-678). */
module FormulaFetch {
  import opened Prelude
  import opened FormulaTable
  import opened FormulaFixpoint
  import opened FormulaApply

  // ----- identifiers a formula text expands to --------------------------------------------

  /** The tokens of a formula of this table, as `table_formula_exprs` holds them. */
  function Expansion(table: Table, x: Name): seq<Name> {
    match table.Find(x)
    case None => []
    case Some(p) =>
      match table.entries[p].meta
      case Formula(tokens, _) => tokens
      case Rollup(_) => []
  }

  /** `x` is a formula whose text contains the identifier `y`. */
  ghost predicate Mentions(table: Table, x: Name, y: Name) {
    IsFormula(table, x) && y in table.NonFunctions(Expansion(table, x))
  }

  /** Each member of the path is an identifier of the formula before it; the first one of `tokens`. */
  ghost predicate ExpansionPath(table: Table, tokens: seq<Name>, path: seq<Name>) {
    && path != [] && path[0] in table.NonFunctions(tokens)
    && forall i, j :: 0 <= i && j == i + 1 < |path| ==> Mentions(table, path[i], path[j])
  }

  /** `x` is met when `tokens` is expanded again and again. */
  ghost predicate Expands(table: Table, tokens: seq<Name>, x: Name) {
    exists path :: ExpansionPath(table, tokens, path) && path[|path| - 1] == x
  }

  /** `c` is a column the expansion bottoms out in; a rollup bottoms out in the record's id. */
  ghost predicate Needed(table: Table, tokens: seq<Name>, c: Name) {
    (Expands(table, tokens, c) && table.Find(c).None?)
    || (c == "id" && exists x :: Expands(table, tokens, x) && IsRollup(table, x))
  }

  lemma ExpandsStep(table: Table, tokens: seq<Name>, x: Name, y: Name)
    requires Expands(table, tokens, x) && Mentions(table, x, y)
    ensures Expands(table, tokens, y)
  {
    var path :| ExpansionPath(table, tokens, path) && path[|path| - 1] == x;
    var longer := path + [y];
    assert longer[0] == path[0];
    forall i, j | 0 <= i && j == i + 1 < |longer| ensures Mentions(table, longer[i], longer[j]) {
      if j < |path| {
        assert longer[i] == path[i] && longer[j] == path[j];
      }
    }
    assert ExpansionPath(table, tokens, longer) && longer[|longer| - 1] == y;
  }

  lemma ExpandsDirect(table: Table, tokens: seq<Name>, x: Name)
    requires x in table.NonFunctions(tokens)
    ensures Expands(table, tokens, x)
  {
    assert ExpansionPath(table, tokens, [x]) && [x][|[x]| - 1] == x;
  }

  // ----- the recursive extraction ---------------------------------------------------------

  /** The mutable set one top-level extraction shares with its recursive calls. */
  class Visited {
    var names: set<Name>

    constructor ()
      ensures names == {}
    {
      names := {};
    }
  }

  /** What newly visited names contribute. */
  ghost predicate Contributes(table: Table, before: set<Name>, after: set<Name>, deps: set<Name>) {
    forall c :: c in deps <==>
      (c in after && c !in before && table.Find(c).None?)
      || (c == "id" && exists x :: x in after && x !in before && IsRollup(table, x))
  }

  /** Every newly visited formula has all its identifiers visited. */
  ghost predicate Closed(table: Table, before: set<Name>, after: set<Name>) {
    forall x, y :: x in after && x !in before && Mentions(table, x, y) ==> y in after
  }

  ghost predicate AllExpand(table: Table, root: seq<Name>, before: set<Name>, after: set<Name>) {
    forall x :: x in after && x !in before ==> Expands(table, root, x)
  }

  /** `_extract_deps` below its top level: `root` is the text the extraction started from. */
  method ExtractFrom(table: Table, tokens: seq<Name>, visited: Visited, ghost root: seq<Name>) returns (deps: set<Name>)
    requires forall x | x in table.NonFunctions(tokens) :: Expands(table, root, x)
    modifies visited
    ensures old(visited.names) <= visited.names
    ensures forall x | x in table.NonFunctions(tokens) :: x in visited.names
    ensures Closed(table, old(visited.names), visited.names)
    ensures AllExpand(table, root, old(visited.names), visited.names)
    ensures Contributes(table, old(visited.names), visited.names, deps)
    decreases Names(table) - visited.names
  {
    deps := {};
    ghost var before := visited.names;
    for i := 0 to |tokens|
      invariant before <= visited.names
      invariant forall k | 0 <= k < i && tokens[k] !in table.functions :: tokens[k] in visited.names
      invariant Closed(table, before, visited.names)
      invariant AllExpand(table, root, before, visited.names)
      invariant Contributes(table, before, visited.names, deps)
    {
      var token := tokens[i];
      if token in table.functions || token in visited.names {
        continue;
      }
      ghost var was, had := visited.names, deps;
      assert token in table.NonFunctions(tokens);
      visited.names := visited.names + {token};
      if IsFormula(table, token) {
        assert table.entries[table.Find(token).value].name in Names(table);
        forall y | Mentions(table, token, y) ensures Expands(table, root, y) {
          ExpandsStep(table, root, token, y);
        }
        var inner := ExtractFrom(table, Expansion(table, token), visited, root);
        deps := deps + inner;
      } else if IsRollup(table, token) {
        deps := deps + {"id"};
      } else {
        deps := deps + {token};
      }
    }
  }

  /** The extraction terminates on any table, cyclic ones included, and returns exactly the
      columns that expanding the text bottoms out in. */
  method ExtractDeps(table: Table, tokens: seq<Name>) returns (deps: set<Name>)
    ensures forall c :: c in deps <==> Needed(table, tokens, c)
  {
    forall x | x in table.NonFunctions(tokens) ensures Expands(table, tokens, x) {
      ExpandsDirect(table, tokens, x);
    }
    var visited := new Visited();
    deps := ExtractFrom(table, tokens, visited, tokens);
    VisitedIsExpansion(table, tokens, visited.names);
    ContributionIsNeeded(table, tokens, visited.names, deps);
  }

  /** A closed set that contains the text's identifiers and nothing unreachable is the expansion. */
  lemma VisitedIsExpansion(table: Table, tokens: seq<Name>, after: set<Name>)
    requires Closed(table, {}, after) && AllExpand(table, tokens, {}, after)
    requires forall x | x in table.NonFunctions(tokens) :: x in after
    ensures forall x :: x in after <==> Expands(table, tokens, x)
  {
    hide Closed, Mentions;
    forall x ensures x in after <==> Expands(table, tokens, x) {
      assert x in after ==> x !in {};
      if Expands(table, tokens, x) {
        var path :| ExpansionPath(table, tokens, path) && path[|path| - 1] == x;
        PathVisited(table, tokens, path, after, |path| - 1);
      }
    }
  }

  lemma ContributionIsNeeded(table: Table, tokens: seq<Name>, after: set<Name>, deps: set<Name>)
    requires forall x :: x in after <==> Expands(table, tokens, x)
    requires Contributes(table, {}, after, deps)
    ensures forall c :: c in deps <==> Needed(table, tokens, c)
  {
    hide Expands, IsRollup;
    forall c ensures c in deps <==> Needed(table, tokens, c) {
    }
  }

  lemma {:induction false} PathVisited(table: Table, tokens: seq<Name>, path: seq<Name>, after: set<Name>, n: nat)
    requires ExpansionPath(table, tokens, path) && n < |path| && Closed(table, {}, after)
    requires forall x | x in table.NonFunctions(tokens) :: x in after
    ensures path[n] in after
  {
    if n > 0 {
      PathVisited(table, tokens, path, after, n - 1);
      var x, y := path[n - 1], path[n];
      assert x in after && x !in {};
    }
  }

  // ----- choosing the columns to fetch ----------------------------------------------------

  /** A requested field of the report's own table: its bare name, or a description of it, whose
      alias may be missing (or empty). */
  datatype Requested = Bare(name: Name) | Described(name: Name, alias: Option<Name>) {
    function Key(): Name {
      if Described? && alias.Some? then alias.value else name
    }
  }

  /** The requested fields that are columns, in order. */
  function Physicals(table: Table, fields: seq<Requested>): (out: seq<Requested>)
    ensures forall f :: f in out <==> f in fields && table.Find(f.name).None?
  {
    if fields == [] then []
    else
      var last := fields[|fields| - 1];
      Physicals(table, fields[..|fields| - 1]) + if table.Find(last.name).None? then [last] else []
  }

  /** Assignment to an ordered dictionary: an existing key keeps its position. */
  function Assign(outputs: seq<Output>, o: Output): seq<Output> {
    if outputs == [] then [o]
    else if outputs[0].key == o.key then [o] + outputs[1..]
    else [outputs[0]] + Assign(outputs[1..], o)
  }

  lemma {:induction false} Assigned(outputs: seq<Output>, o: Output)
    requires DistinctKeys(outputs)
    ensures DistinctKeys(Assign(outputs, o))
    ensures forall p :: p in Assign(outputs, o) <==> p == o || (p in outputs && p.key != o.key)
  {
    if outputs != [] {
      var rest := outputs[1..];
      assert forall i | 0 < i < |outputs| :: outputs[i] == rest[i - 1];
      assert DistinctKeys(rest) && forall p | p in rest :: p.key != outputs[0].key;
      if outputs[0].key != o.key {
        Assigned(rest, o);
        var out := Assign(outputs, o);
        assert forall i | 0 < i < |out| :: out[i] == Assign(rest, o)[i - 1] && out[i] in Assign(rest, o);
      }
    }
  }

  /** `computed_fields`: the requested computed fields by output key, a later one overwriting. */
  function Outputs(table: Table, fields: seq<Requested>): (out: seq<Output>)
    ensures DistinctKeys(out) && Computable(table, out)
  {
    if fields == [] then []
    else
      var last, before := fields[|fields| - 1], Outputs(table, fields[..|fields| - 1]);
      Assigned(before, Output(last.Key(), last.name));
      if table.Find(last.name).Some? then Assign(before, Output(last.Key(), last.name)) else before
  }

  function Uncomputed(table: Table): Requested -> bool { (f: Requested) => table.Find(f.name).None? }

  /** The physical fields are, in order, the requested ones that the table does not compute. */
  lemma {:induction false} PhysicalsInOrder(table: Table, fields: seq<Requested>, n: nat) returns (at: seq<nat>)
    requires n <= |fields|
    ensures Picked(fields, n, Uncomputed(table), at, Physicals(table, fields[..n]))
  {
    hide Picked, Table.FindFrom;
    if n == 0 {
      at := [];
      PickNothing(fields, Uncomputed(table));
    } else {
      at := PhysicalsInOrder(table, fields, n - 1);
      var before, f := Physicals(table, fields[..n - 1]), fields[n - 1];
      PrefixNext(fields, n - 1);
      PickNext(fields, n - 1, Uncomputed(table), at, before);
      assert Physicals(table, fields[..n]) == before + if table.Find(f.name).None? then [f] else [];
      hide Physicals;
      if table.Find(f.name).None? {
        at := at + [n - 1];
      } else {
        assert before + [] == before;
      }
    }
  }

  lemma {:induction false} AssignedAt(outputs: seq<Output>, o: Output, p: nat)
    requires DistinctKeys(outputs) && p <= |outputs|
    requires if p < |outputs| then outputs[p].key == o.key else forall i | 0 <= i < |outputs| :: outputs[i].key != o.key
    ensures Assign(outputs, o) == if p < |outputs| then outputs[p := o] else outputs + [o]
  {
    if outputs != [] && outputs[0].key != o.key {
      var rest := outputs[1..];
      assert forall i | 0 < i < |outputs| :: outputs[i] == rest[i - 1];
      AssignedAt(rest, o, p - 1);
      assert Assign(outputs, o) == [outputs[0]] + Assign(rest, o);
      hide Assign;
      assert outputs == [outputs[0]] + rest;
    }
  }

  /** The request is for a computed field, to be shown under key `k`: its alias, or else its name. */
  predicate AsksFor(table: Table, f: Requested, k: Name) {
    table.Find(f.name).Some? && k == if f.Described? && f.alias.Some? then f.alias.value else f.name
  }

  /** Position `i` is the first of these requests for key `k`. */
  ghost predicate FirstFor(table: Table, fields: seq<Requested>, k: Name, i: nat) {
    i < |fields| && AsksFor(table, fields[i], k) && forall m | 0 <= m < i :: !AsksFor(table, fields[m], k)
  }

  /** Position `i` is the last one. */
  ghost predicate LastFor(table: Table, fields: seq<Requested>, k: Name, i: nat) {
    i < |fields| && AsksFor(table, fields[i], k) && forall m | i < m < |fields| :: !AsksFor(table, fields[m], k)
  }

  lemma OneMoreRequest(table: Table, front: seq<Requested>, f: Requested, k: Name)
    ensures forall i: nat | FirstFor(table, front, k, i) :: FirstFor(table, front + [f], k, i)
    ensures forall i: nat | LastFor(table, front, k, i) && !AsksFor(table, f, k) :: LastFor(table, front + [f], k, i)
    ensures AsksFor(table, f, k) ==> LastFor(table, front + [f], k, |front|)
    ensures AsksFor(table, f, k) && (forall m | 0 <= m < |front| :: !AsksFor(table, front[m], k))
      ==> FirstFor(table, front + [f], k, |front|)
  {
    hide AsksFor;
  }

  /** The output's key is first requested at `i` and last at `l`, there for this field. */
  ghost predicate Placed(table: Table, fields: seq<Requested>, o: Output, i: nat, l: nat) {
    FirstFor(table, fields, o.key, i) && LastFor(table, fields, o.key, l) && fields[l].name == o.field
  }

  /** All outputs are placed, in the order of the first requests, and every request has its output. */
  ghost predicate AllPlaced(table: Table, fields: seq<Requested>, out: seq<Output>, first: seq<nat>, last: seq<nat>) {
    && |first| == |last| == |out|
    && (forall p | 0 <= p < |out| :: Placed(table, fields, out[p], first[p], last[p]))
    && (forall p, q :: 0 <= p < q < |first| ==> first[p] < first[q])
    && forall i, k | 0 <= i < |fields| && AsksFor(table, fields[i], k) :: Keyed(out, k)
  }

  /** A request for a new key adds an output at the end, one for a known key replaces its field. */
  lemma PlacedNext(table: Table, front: seq<Requested>, f: Requested, out: seq<Output>, first: seq<nat>,
          last: seq<nat>, p: nat)
    requires AllPlaced(table, front, out, first, last) && DistinctKeys(out) && p <= |out|
    requires AsksFor(table, f, f.Key())
    requires if p < |out| then out[p].key == f.Key() else forall i | 0 <= i < |out| :: out[i].key != f.Key()
    ensures var o := Output(f.Key(), f.name);
      if p < |out| then AllPlaced(table, front + [f], out[p := o], first, last[p := |front|])
      else AllPlaced(table, front + [f], out + [o], first + [|front|], last + [|front|])
  {
    hide FirstFor, LastFor;
    var o, all, n := Output(f.Key(), f.name), front + [f], |front|;
    var out' := if p < |out| then out[p := o] else out + [o];
    var first', last' := if p < |out| then first else first + [n], if p < |out| then last[p := n] else last + [n];
    assert forall k :: AsksFor(table, f, k) <==> k == o.key;
    assert p == |out| ==> !Keyed(out, o.key);
    forall q | 0 <= q < |out'| ensures Placed(table, all, out'[q], first'[q], last'[q]) {
      OneMoreRequest(table, front, f, out'[q].key);
      if q < |out| {
        FirstIsRequested(table, front, out[q], first[q], last[q]);
      }
    }
    forall q | 0 <= q < |first| ensures first[q] < n {
      FirstIsRequested(table, front, out[q], first[q], last[q]);
    }
    forall i, k | 0 <= i < |all| && AsksFor(table, all[i], k) ensures Keyed(out', k) {
      if i < n {
        assert AsksFor(table, front[i], k) && Keyed(out, k);
        var q :| 0 <= q < |out| && out[q].key == k;
        assert out'[q].key == k && out'[q] in out';
      } else {
        assert out'[p] == o && o in out';
      }
    }
  }

  lemma FirstIsRequested(table: Table, fields: seq<Requested>, o: Output, i: nat, l: nat)
    requires Placed(table, fields, o, i, l)
    ensures i < |fields| && l < |fields|
  {
  }

  lemma {:induction false} OutputsPlaced(table: Table, fields: seq<Requested>) returns (first: seq<nat>, last: seq<nat>)
    ensures AllPlaced(table, fields, Outputs(table, fields), first, last)
  {
    hide Placed;
    first, last := [], [];
    if fields != [] {
      var n := |fields| - 1;
      var f, before := fields[n], Outputs(table, fields[..n]);
      first, last := OutputsPlaced(table, fields[..n]);
      assert fields == fields[..n] + [f];
      hide AllPlaced;
      if table.Find(f.name).Some? {
        var p := KeyPosition(before, f.Key());
        AssignedAt(before, Output(f.Key(), f.name), p);
        PlacedNext(table, fields[..n], f, before, first, last, p);
        if p < |before| {
          last := last[p := n];
        } else {
          first, last := first + [n], last + [n];
        }
      } else {
        ColumnPlaced(table, fields[..n], f, before, first, last);
      }
    }
  }

  lemma KeyPosition(outputs: seq<Output>, k: Name) returns (p: nat)
    ensures p <= |outputs|
    ensures if p < |outputs| then outputs[p].key == k else forall i | 0 <= i < |outputs| :: outputs[i].key != k
  {
    if p' :| 0 <= p' < |outputs| && outputs[p'].key == k { p := p'; } else { p := |outputs|; }
  }

  lemma ColumnPlaced(table: Table, front: seq<Requested>, f: Requested, out: seq<Output>, first: seq<nat>,
          last: seq<nat>)
    requires AllPlaced(table, front, out, first, last) && table.Find(f.name).None?
    ensures AllPlaced(table, front + [f], out, first, last)
  {
    hide FirstFor, LastFor, Table.FindFrom;
    forall p | 0 <= p < |out| ensures Placed(table, front + [f], out[p], first[p], last[p]) {
      OneMoreRequest(table, front, f, out[p].key);
      FirstIsRequested(table, front, out[p], first[p], last[p]);
    }
  }

  lemma OneFirst(table: Table, fields: seq<Requested>, k: Name, i: nat, j: nat)
    ensures FirstFor(table, fields, k, i) && FirstFor(table, fields, k, j) ==> i == j
    ensures LastFor(table, fields, k, i) && LastFor(table, fields, k, j) ==> i == j
  {
    hide AsksFor;
  }

  /** The computed fields are shown under their keys in the order in which these are first requested,
      each key with the field last requested under it; and no key but the requested ones. */
  lemma OutputsInOrder(table: Table, fields: seq<Requested>, p: nat, q: nat, i: nat, j: nat)
    requires p < |Outputs(table, fields)| && q < |Outputs(table, fields)|
    requires FirstFor(table, fields, Outputs(table, fields)[p].key, i)
    ensures FirstFor(table, fields, Outputs(table, fields)[q].key, j) ==> (p < q <==> i < j)
    ensures LastFor(table, fields, Outputs(table, fields)[p].key, j) ==>
      Outputs(table, fields)[p].field == fields[j].name
  {
    hide FirstFor, LastFor, Outputs;
    var first, last := OutputsPlaced(table, fields);
    var o, other := Outputs(table, fields)[p], Outputs(table, fields)[q];
    assert Placed(table, fields, o, first[p], last[p]) && Placed(table, fields, other, first[q], last[q]);
    OneFirst(table, fields, o.key, i, first[p]);
    OneFirst(table, fields, other.key, j, first[q]);
    OneFirst(table, fields, o.key, j, last[p]);
  }

  /** A key is shown exactly if a computed field is requested under it. */
  lemma OutputKeys(table: Table, fields: seq<Requested>, k: Name)
    ensures Keyed(Outputs(table, fields), k) <==> exists f :: f in fields && AsksFor(table, f, k)
  {
    hide Outputs, AsksFor, LastFor;
    var first, last := OutputsPlaced(table, fields);
    if Keyed(Outputs(table, fields), k) {
      var p :| 0 <= p < |Outputs(table, fields)| && Outputs(table, fields)[p].key == k;
      assert Placed(table, fields, Outputs(table, fields)[p], first[p], last[p]);
      assert fields[first[p]] in fields;
    }
    if f :| f in fields && AsksFor(table, f, k) {
      var m :| 0 <= m < |fields| && fields[m] == f;
    }
  }

  /** The text of one of these outputs bottoms out in column `c`. */
  ghost predicate NeededBySome(table: Table, outputs: seq<Output>, c: Name) {
    exists o :: o in outputs && Needed(table, Expansion(table, o.field), c)
  }

  predicate Named(fields: seq<Requested>, c: Name) { exists f :: f in fields && f.name == c }

  /** What has to be fetched beyond the requested physical fields; `others` are the names of
      computed fields of other objects. */
  ghost predicate Extra(table: Table, others: set<Name>, fields: seq<Requested>, c: Name) {
    && NeededBySome(table, Outputs(table, fields), c)
    && !Named(Physicals(table, fields), c) && !Keyed(Outputs(table, fields), c)
    && table.Find(c).None? && c !in others
  }

  method ProcessComputedFields(table: Table, others: set<Name>, fields: seq<Requested>)
    returns (physical: seq<Requested>, computed: seq<Output>, extra: set<Name>)
    ensures physical == Physicals(table, fields) && computed == Outputs(table, fields)
    ensures forall c :: c in extra <==> Extra(table, others, fields, c)
  {
    physical, computed := [], [];
    for i := 0 to |fields|
      invariant physical == Physicals(table, fields[..i]) && computed == Outputs(table, fields[..i])
    {
      assert fields[..i + 1][..i] == fields[..i];
      var f := fields[i];
      if table.Find(f.name).Some? {
        computed := Assign(computed, Output(f.Key(), f.name));
      } else {
        physical := physical + [f];
      }
    }
    assert fields[..|fields|] == fields;
    extra := DependenciesOf(table, computed);
    var existing := set f | f in physical :: f.name;
    var keys := set o | o in computed :: o.key;
    extra := extra - existing - keys;
    extra := set c | c in extra && table.Find(c).None? && c !in others;
  }

  method DependenciesOf(table: Table, computed: seq<Output>) returns (extra: set<Name>)
    requires Computable(table, computed)
    ensures forall c :: c in extra <==> NeededBySome(table, computed, c)
  {
    hide Needed, Table.FindFrom;
    extra := {};
    for i := 0 to |computed|
      invariant forall c :: c in extra <==> NeededBySome(table, computed[..i], c)
    {
      assert computed[..i + 1] == computed[..i] + [computed[i]];
      if IsFormula(table, computed[i].field) {
        var deps := ExtractDeps(table, Expansion(table, computed[i].field));
        extra := extra + deps;
      } else {
        NothingNeeded(table);
        assert Expansion(table, computed[i].field) == [];
      }
    }
    assert computed[..|computed|] == computed;
  }

  lemma NothingNeeded(table: Table)
    ensures forall c :: !Needed(table, [], c)
  {
    forall x ensures !Expands(table, [], x) {
    }
  }

  // ----- the fetched columns suffice ------------------------------------------------------

  /** Columns that computing `x` bottoms out in. */
  ghost predicate NeededBy(table: Table, x: Name, c: Name) {
    if IsRollup(table, x) then c == "id" else Needed(table, Expansion(table, x), c)
  }

  /** Columns that reading `r` bottoms out in: itself unless it is computed. */
  ghost predicate ReadNeeds(table: Table, r: Name, c: Name) {
    if table.Find(r).None? then c == r else NeededBy(table, r, c)
  }

  /** Expansion goes through one of the text's own identifiers. */
  lemma ExpandsFirst(table: Table, tokens: seq<Name>, y: Name) returns (r: Name)
    requires Expands(table, tokens, y)
    ensures r in table.NonFunctions(tokens)
    ensures y == r || (IsFormula(table, r) && Expands(table, Expansion(table, r), y))
  {
    var path :| ExpansionPath(table, tokens, path) && path[|path| - 1] == y;
    r := path[0];
    if |path| > 1 {
      assert Mentions(table, path[0], path[1]);
      var rest := path[1..];
      forall i, j | 0 <= i && j == i + 1 < |rest| ensures Mentions(table, rest[i], rest[j]) {
        assert rest[i] == path[i + 1] && rest[j] == path[j + 1];
      }
      assert ExpansionPath(table, Expansion(table, r), rest) && rest[|rest| - 1] == y;
    }
  }

  lemma ExpandsThrough(table: Table, tokens: seq<Name>, r: Name, y: Name)
    requires r in table.NonFunctions(tokens) && IsFormula(table, r) && Expands(table, Expansion(table, r), y)
    ensures Expands(table, tokens, y)
  {
    var path :| ExpansionPath(table, Expansion(table, r), path) && path[|path| - 1] == y;
    var longer := [r] + path;
    forall i, j | 0 <= i && j == i + 1 < |longer| ensures Mentions(table, longer[i], longer[j]) {
      if i > 0 {
        assert longer[i] == path[i - 1] && longer[j] == path[j - 1];
      }
    }
    assert ExpansionPath(table, tokens, longer) && longer[|longer| - 1] == y;
  }

  /** A formula needs what the fields it reads need ... */
  lemma NeededFrom(table: Table, x: Name, c: Name) returns (r: Name)
    requires IsFormula(table, x) && NeededBy(table, x, c)
    ensures r in table.Needs(x) && ReadNeeds(table, r, c)
  {
    hide ExpansionPath, Expands;
    if Expands(table, Expansion(table, x), c) && table.Find(c).None? {
      r := ExpandsFirst(table, Expansion(table, x), c);
    } else {
      var y :| Expands(table, Expansion(table, x), y) && IsRollup(table, y);
      r := ExpandsFirst(table, Expansion(table, x), y);
    }
  }

  /** ... and nothing else. */
  lemma NeededThrough(table: Table, x: Name, r: Name, c: Name)
    requires IsFormula(table, x) && r in table.Needs(x) && ReadNeeds(table, r, c)
    ensures NeededBy(table, x, c)
  {
    ExpandsDirect(table, Expansion(table, x), r);
    if IsFormula(table, r) {
      forall y | Expands(table, Expansion(table, r), y) ensures Expands(table, Expansion(table, x), y) {
        ExpandsThrough(table, Expansion(table, x), r, y);
      }
    }
  }

  /** No column of the row is named like a computed field of its table; it has an id. */
  ghost predicate PlainRow(table: Table, row: Record) {
    "id" in row && forall x | x in row :: table.Find(x).None?
  }

  ghost predicate Part(fetched: Record, row: Record) {
    forall x | x in fetched :: x in row && fetched[x] == row[x]
  }

  /** A field with a value on the full row keeps it on part of the row exactly if every column it
      needs is in that part. */
  lemma {:induction false} ValueOnPart(table: Table, rank: map<Name, nat>, row: Record, fetched: Record, x: Name)
    requires Ranked(table, rank) && PlainRow(table, row) && Part(fetched, row)
    requires table.Find(x).Some? && Value(table, rank, row, x).Some?
    ensures Value(table, rank, fetched, x) == (if forall c | NeededBy(table, x, c) :: c in fetched
      then Value(table, rank, row, x) else None)
    decreases RankOf(table, rank, x)
  {
    hide NeededBy, Table.Reads, Table.Apply, Table.FindFrom;
    var needs := table.Needs(x);
    forall r | r in needs
      ensures Value(table, rank, row, r).Some?
      ensures Value(table, rank, fetched, r) ==
        if forall c | ReadNeeds(table, r, c) :: c in fetched then Value(table, rank, row, r) else None
    {
      if table.Find(r).Some? {
        ValueOnPart(table, rank, row, fetched, r);
      }
    }
    NeededColumns(table, x, fetched);
    if forall r | r in needs :: Value(table, rank, fetched, r).Some? {
      assert seq(|needs|, i requires 0 <= i < |needs| => Value(table, rank, fetched, needs[i]).value)
        == seq(|needs|, i requires 0 <= i < |needs| => Value(table, rank, row, needs[i]).value);
    }
  }

  /** All needed columns are present exactly if they are for each field read. */
  lemma NeededColumns(table: Table, x: Name, fetched: Record)
    requires table.Find(x).Some? && table.Find("id").None?
    ensures (forall c | NeededBy(table, x, c) :: c in fetched) <==>
      forall r | r in table.Needs(x) :: forall c | ReadNeeds(table, r, c) :: c in fetched
  {
    hide Needed;
    if IsFormula(table, x) {
      forall c | NeededBy(table, x, c) ensures exists r :: r in table.Needs(x) && ReadNeeds(table, r, c) {
        var r := NeededFrom(table, x, c);
      }
      forall r, c | r in table.Needs(x) && ReadNeeds(table, r, c) ensures NeededBy(table, x, c) {
        NeededThrough(table, x, r, c);
      }
    } else {
      assert NeededBy(table, x, "id") && ReadNeeds(table, "id", "id") && "id" in table.Needs(x);
    }
  }
}
