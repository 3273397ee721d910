/** From the columns a report chooses to fetch to the computed values it shows: the list it asks for
    (api/BL/blcontroller.py:249-266), what the permission check makes of that list
    (api/permissions/permissions.py:994-1036), the record the query returns
    (api/ORM/sqlFunctions/complexGetSql.py:203-294, 381-406), exactly when that record holds what a
    formula needs, and what is computed from it. */
module FormulaReport {
  import opened Prelude
  import opened FormulaTable
  import opened FormulaFixpoint
  import opened FormulaApply
  import opened FormulaFetch

  // ----- the query ------------------------------------------------------------------------

  function Digits(n: nat): string {
    if n < 10 then [['0', '1', '2', '3', '4', '5', '6', '7', '8', '9'][n]] else Digits(n / 10) + Digits(n % 10)
  }

  /** What decimal digits denote, most significant first. */
  function Denotes(digits: string): Option<nat> {
    if digits == [] then Some(0)
    else
      var front, last := Denotes(digits[..|digits| - 1]), digits[|digits| - 1];
      if front.Some? && '0' <= last <= '9' then Some(10 * front.value + (last - '0') as int) else None
  }

  /** The digits denote the number, without a leading zero. */
  lemma {:induction false} DigitsDenote(n: nat)
    ensures Denotes(Digits(n)) == Some(n)
    ensures Digits(n) != [] && (Digits(n)[0] == '0' ==> n == 0)
  {
    if n < 10 {
      DigitDenotes(n);
    } else {
      DigitsDenote(n / 10);
      DigitDenotes(n % 10);
      DenotesNext(Digits(n / 10), Digits(n % 10));
    }
  }

  lemma DenotesNext(front: string, last: string)
    requires |last| == 1 && '0' <= last[0] <= '9' && Denotes(front).Some?
    ensures Denotes(front + last) == Some(10 * Denotes(front).value + (last[0] - '0') as int)
  {
    assert (front + last)[..|front|] == front;
  }

  lemma DigitDenotes(d: nat)
    requires d < 10
    ensures |Digits(d)| == 1 && '0' <= Digits(d)[0] <= '9' && (Digits(d)[0] - '0') as int == d
    ensures Denotes(Digits(d)) == Some(d)
  {
    assert Digits(d)[..0] == [];
  }

  /** The result column of the selected field at position `i`: a bare name is its own column, a
      description without alias gets a generated one. */
  function ResultKey(f: Requested, i: nat): Name {
    match f
    case Bare(name) => name
    case Described(_, Some(alias)) => alias
    case Described(_, None) => "expr" + Digits(i)
  }

  /** The record of a result row: of equal result columns the last one counts. */
  function Zip(select: seq<Requested>, n: nat, row: Record): Record
    requires n <= |select|
  {
    if n == 0 then map[]
    else
      var before, f := Zip(select, n - 1, row), select[n - 1];
      if f.name in row then before[ResultKey(f, n - 1) := row[f.name]] else before - {ResultKey(f, n - 1)}
  }

  /** The column whose value the first `n` selected fields leave under key `x`. */
  function Source(select: seq<Requested>, n: nat, x: Name): Option<Name>
    requires n <= |select|
  {
    if n == 0 then None
    else if ResultKey(select[n - 1], n - 1) == x then Some(select[n - 1].name)
    else Source(select, n - 1, x)
  }

  function Through(source: Option<Name>, row: Record): Option<int> {
    match source case None => None case Some(c) => Get(row, c)
  }

  lemma {:induction false} ZipSource(select: seq<Requested>, n: nat, row: Record, x: Name)
    requires n <= |select|
    ensures Get(Zip(select, n, row), x) == Through(Source(select, n, x), row)
  {
    if n > 0 {
      ZipSource(select, n - 1, row, x);
    }
  }

  /** Selecting one more column under its own name. */
  lemma {:induction false} SourceAppend(select: seq<Requested>, dep: Name, n: nat, x: Name)
    requires n <= |select|
    ensures Source(select + [Described(dep, Some(dep))], n, x) == Source(select, n, x)
    ensures Source(select + [Described(dep, Some(dep))], |select| + 1, x) ==
      if x == dep then Some(dep) else Source(select + [Described(dep, Some(dep))], |select|, x)
  {
    if n > 0 {
      SourceAppend(select, dep, n - 1, x);
    }
  }

  // ----- read permission ------------------------------------------------------------------

  /** Who asks: a table that is no registered object is open to all as it stands, otherwise the
      profile may read certain fields. */
  datatype Access = Unregistered | Profile(readable: set<Name>)

  /** The names of other objects' computed fields, and the access to the report's own table. */
  datatype Context = Context(others: set<Name>, access: Access)

  /** The bare names the profile may read; the identifier always. */
  function ReadableOf(requested: seq<Requested>, readable: set<Name>): seq<Requested> {
    if requested == [] then []
    else
      var front, last := ReadableOf(requested[..|requested| - 1], readable), requested[|requested| - 1];
      if last.Bare? && (last.name == "id" || last.name in readable) then front + [last] else front
  }

  /** The described fields, which are not checked. */
  function DescribedOf(requested: seq<Requested>): seq<Requested> {
    if requested == [] then []
    else
      var front, last := DescribedOf(requested[..|requested| - 1]), requested[|requested| - 1];
      if last.Described? then front + [last] else front
  }

  /** What is selected of a requested list: for a registered object readable bare names first, then
      described fields; other bare names are dropped. */
  function Permitted(access: Access, requested: seq<Requested>): seq<Requested> {
    match access
    case Unregistered => requested
    case Profile(readable) => ReadableOf(requested, readable) + DescribedOf(requested)
  }

  method SelectPermitted(access: Access, requested: seq<Requested>) returns (select: seq<Requested>)
    ensures select == Permitted(access, requested)
  {
    if access.Unregistered? {
      return requested;
    }
    var permitted: seq<Requested>, described: seq<Requested> := [], [];
    for i := 0 to |requested|
      invariant permitted == ReadableOf(requested[..i], access.readable) && described == DescribedOf(requested[..i])
    {
      var f := requested[i];
      assert requested[..i + 1][..i] == requested[..i];
      if f.Described? {
        described := described + [f];
      } else if f.name == "id" || f.name in access.readable {
        permitted := permitted + [f];
      }
    }
    assert requested[..|requested|] == requested;
    return permitted + described;
  }

  lemma {:induction false} PermittedIsRequested(access: Access, requested: seq<Requested>, f: Requested)
    requires f in Permitted(access, requested)
    ensures f in requested
  {
    if access.Profile? && requested != [] {
      var front := requested[..|requested| - 1];
      if f in Permitted(access, front) {
        PermittedIsRequested(access, front, f);
      }
    }
  }

  lemma PermittedNext(readable: set<Name>, requested: seq<Requested>, f: Requested)
    ensures ReadableOf(requested + [f], readable) == ReadableOf(requested, readable)
      + if f.Bare? && (f.name == "id" || f.name in readable) then [f] else []
    ensures DescribedOf(requested + [f]) == DescribedOf(requested) + if f.Described? then [f] else []
  {
    assert (requested + [f])[..|requested|] == requested;
  }

  lemma PermittedDescribed(access: Access, requested: seq<Requested>, f: Requested)
    requires f.Described?
    ensures Permitted(access, requested + [f]) == Permitted(access, requested) + [f]
  {
    if access.Profile? {
      PermittedNext(access.readable, requested, f);
      hide ReadableOf, DescribedOf;
      var bare, described := ReadableOf(requested, access.readable), DescribedOf(requested);
      assert bare + [] == bare && bare + (described + [f]) == bare + described + [f];
    }
  }

  /** Described fields at the end stay at the end. */
  lemma {:induction false} PermittedAppend(access: Access, requested: seq<Requested>, deps: seq<Requested>)
    requires forall f | f in deps :: f.Described?
    ensures Permitted(access, requested + deps) == Permitted(access, requested) + deps
    decreases |deps|
  {
    hide Permitted;
    if deps == [] {
      assert requested + deps == requested && Permitted(access, requested) + deps == Permitted(access, requested);
    } else {
      var front, last := deps[..|deps| - 1], deps[|deps| - 1];
      PermittedAppend(access, requested, front);
      PermittedDescribed(access, requested + front, last);
      LastApart(requested, deps);
      LastApart(Permitted(access, requested), deps);
    }
  }

  lemma LastApart<T>(a: seq<T>, b: seq<T>)
    requires b != []
    ensures a + b == a + b[..|b| - 1] + [b[|b| - 1]]
  {
  }

  // ----- the record the query returns -----------------------------------------------------

  /** Some described field has this alias. */
  predicate AliasOf(fields: seq<Requested>, c: Name) {
    exists f :: f in fields && f.Described? && f.alias == Some(c)
  }

  /** An extra dependency arrives under its own name, unless that is an alias already taken. */
  function Arrival(access: Access, physical: seq<Requested>, extra: bool, x: Name): Option<Name> {
    if extra && !AliasOf(physical, x) then Some(x)
    else Source(Permitted(access, physical), |Permitted(access, physical)|, x)
  }

  /** The column whose value the report's record holds under key `x`. */
  ghost function Delivered(table: Table, ctx: Context, fields: seq<Requested>, x: Name): Option<Name> {
    Arrival(ctx.access, Physicals(table, fields), Extra(table, ctx.others, fields, x), x)
  }

  /** Each of these names once more or for the first time, described by itself. */
  ghost predicate Dependencies(deps: seq<Requested>) {
    forall f | f in deps :: f == Described(f.name, Some(f.name))
  }

  lemma {:induction false} SourceWithDependencies(select: seq<Requested>, deps: seq<Requested>, x: Name)
    requires Dependencies(deps)
    ensures Source(select + deps, |select + deps|, x) ==
      if Described(x, Some(x)) in deps then Some(x) else Source(select, |select|, x)
    decreases |deps|
  {
    if deps == [] {
      assert select + deps == select;
    } else {
      var front, last := deps[..|deps| - 1], deps[|deps| - 1];
      assert last in deps && deps == front + [last];
      SourceWithDependencies(select, front, x);
      SourceAppend(select + front, last.name, |select + front|, x);
      assert select + deps == select + front + [Described(last.name, Some(last.name))];
    }
  }

  /** The list a report asks for: its physical fields, and each extra dependency under its own name
      unless a physical field has that name or alias. */
  method AddDependencies(physical: seq<Requested>, extra: set<Name>) returns (requested: seq<Requested>)
    requires forall c | c in extra :: !Named(physical, c)
    ensures physical <= requested && Dependencies(requested[|physical|..])
    ensures forall x :: Described(x, Some(x)) in requested[|physical|..] <==>
      x in extra && !exists f :: f in physical && f.Described? && f.alias == Some(x)
  {
    var aliases := set f | f in physical && f.Described? && f.alias.Some? :: f.alias.value;
    var existing := (set f | f in physical :: f.name) + aliases;
    var deps: seq<Requested>, todo := [], extra;
    while todo != {}
      invariant todo <= extra && Dependencies(deps)
      invariant forall x :: Described(x, Some(x)) in deps <==> x in extra && x !in todo && !AliasOf(physical, x)
      decreases todo
    {
      var dep :| dep in todo;
      if dep !in existing {
        deps := deps + [Described(dep, Some(dep))];
      } else {
        assert AliasOf(physical, dep);
      }
      todo := todo - {dep};
    }
    requested := physical + deps;
    assert requested[|physical|..] == deps;
  }

  /** The columns selected in the end, and the computed fields: under every key the query delivers
      what `Delivered` says, so each of its rows becomes the record `Fetched`. */
  method SelectColumns(table: Table, ctx: Context, fields: seq<Requested>)
    returns (select: seq<Requested>, computed: seq<Output>)
    ensures computed == Outputs(table, fields)
    ensures forall x :: Source(select, |select|, x) == Delivered(table, ctx, fields, x)
    ensures forall row :: Zip(select, |select|, row) == Fetched(table, ctx, fields, row)
  {
    hide NeededBySome, Named, Keyed, Source, Physicals, Outputs, Dependencies, Permitted, Fetched, Zip;
    var physical, dict, extra := ProcessComputedFields(table, ctx.others, fields);
    computed := dict;
    var requested := AddDependencies(physical, extra);
    select := SelectPermitted(ctx.access, requested);
    ghost var deps := requested[|physical|..];
    AreDescribed(deps);
    assert requested == physical + deps;
    PermittedAppend(ctx.access, physical, deps);
    forall x ensures Source(select, |select|, x) == Delivered(table, ctx, fields, x) {
      SourceWithDependencies(Permitted(ctx.access, physical), deps, x);
    }
    forall row ensures Zip(select, |select|, row) == Fetched(table, ctx, fields, row) {
      ZipIsFetched(table, ctx, fields, select, row);
    }
  }

  lemma AreDescribed(deps: seq<Requested>)
    requires Dependencies(deps)
    ensures forall f | f in deps :: f.Described?
  {
  }

  lemma ZipIsFetched(table: Table, ctx: Context, fields: seq<Requested>, select: seq<Requested>, row: Record)
    requires forall x :: Source(select, |select|, x) == Delivered(table, ctx, fields, x)
    ensures Zip(select, |select|, row) == Fetched(table, ctx, fields, row)
  {
    hide Zip, Fetched, Source, Delivered;
    var zip, fetched := Zip(select, |select|, row), Fetched(table, ctx, fields, row);
    forall x ensures Get(zip, x) == Get(fetched, x) {
      ZipSource(select, |select|, row, x);
      FetchedIsDelivered(table, ctx, fields, row, x);
    }
    SameRecord(zip, fetched);
  }

  lemma SameRecord(a: Record, b: Record)
    requires forall x :: Get(a, x) == Get(b, x)
    ensures a == b
  {
    forall x ensures (x in a <==> x in b) && (x in a ==> a[x] == b[x]) {
      assert Get(a, x) == Get(b, x);
    }
  }

  /** The record the report works on, for a table row. */
  ghost function Fetched(table: Table, ctx: Context, fields: seq<Requested>, row: Record): Record {
    var all := Permitted(ctx.access, Physicals(table, fields));
    map x | x in row.Keys + (set i | 0 <= i < |all| :: ResultKey(all[i], i))
      && Through(Delivered(table, ctx, fields, x), row).Some?
      :: Through(Delivered(table, ctx, fields, x), row).value
  }

  lemma FetchedIsDelivered(table: Table, ctx: Context, fields: seq<Requested>, row: Record, x: Name)
    ensures Get(Fetched(table, ctx, fields, row), x) == Through(Delivered(table, ctx, fields, x), row)
  {
    var all := Permitted(ctx.access, Physicals(table, fields));
    hide Extra, Permitted;
    SourceHasKey(all, |all|, x);
  }

  /** The source of a key is the column of the last selected field with that result column. */
  lemma {:induction false} SourceHasKey(select: seq<Requested>, n: nat, x: Name)
    requires n <= |select|
    ensures Source(select, n, x).None? ==> forall i | 0 <= i < n :: ResultKey(select[i], i) != x
    ensures Source(select, n, x).Some? ==>
      exists i | 0 <= i < n :: ResultKey(select[i], i) == x && select[i].name == Source(select, n, x).value
        && forall m | i < m < n :: ResultKey(select[m], m) != x
  {
    if n > 0 && ResultKey(select[n - 1], n - 1) != x {
      SourceHasKey(select, n - 1, x);
    }
  }

  // ----- whether the record holds what a formula needs --------------------------------------

  /** Reading `x` over the report's record is reading it over the row: a column arrives as itself;
      a computed field is not hidden by an alias, and the same holds of all it reads. */
  ghost predicate Supplied(table: Table, rank: map<Name, nat>, ctx: Context, fields: seq<Requested>, x: Name)
    requires Ranked(table, rank)
    decreases RankOf(table, rank, x)
  {
    if table.Find(x).None? then Delivered(table, ctx, fields, x) == Some(x)
    else
      Delivered(table, ctx, fields, x).None?
      && (x in rank ==> forall r | r in table.Needs(x) :: Supplied(table, rank, ctx, fields, r))
  }

  /** In terms of the expansion: every column `x` bottoms out in arrives as itself, and neither
      `x` nor a computed field met on the way is hidden. */
  lemma {:induction false} SuppliedMeans(table: Table, rank: map<Name, nat>, ctx: Context,
          fields: seq<Requested>, x: Name)
    requires Ranked(table, rank) && table.Find("id").None? && table.Find(x).Some? && x in rank
    ensures Supplied(table, rank, ctx, fields, x) <==>
      && (forall c | NeededBy(table, x, c) :: Delivered(table, ctx, fields, c) == Some(c))
      && (forall y | y == x || (IsFormula(table, x) && Expands(table, Expansion(table, x), y) && table.Find(y).Some?) ::
            Delivered(table, ctx, fields, y) == None)
    decreases RankOf(table, rank, x)
  {
    hide Delivered, Table.FindFrom, Expands, Needed;
    forall r | r in table.Needs(x) && table.Find(r).Some? {
      SuppliedMeans(table, rank, ctx, fields, r);
    }
    if Supplied(table, rank, ctx, fields, x) {
      forall c | NeededBy(table, x, c) ensures Delivered(table, ctx, fields, c) == Some(c) {
        if IsFormula(table, x) {
          var r := NeededFrom(table, x, c);
          assert Supplied(table, rank, ctx, fields, r);
        } else {
          assert c == "id" && "id" in table.Needs(x) && Supplied(table, rank, ctx, fields, "id");
        }
      }
      forall y | IsFormula(table, x) && Expands(table, Expansion(table, x), y) && table.Find(y).Some?
        ensures Delivered(table, ctx, fields, y) == None
      {
        var r := ExpandsFirst(table, Expansion(table, x), y);
        assert r in table.Needs(x);
      }
    } else {
      if Delivered(table, ctx, fields, x).None? {
        var r :| r in table.Needs(x) && !Supplied(table, rank, ctx, fields, r);
        if IsFormula(table, x) {
          ExpandsDirect(table, Expansion(table, x), r);
          if table.Find(r).Some? {
            if c :| NeededBy(table, r, c) && Delivered(table, ctx, fields, c) != Some(c) {
              NeededThrough(table, x, r, c);
            } else {
              var y :| Delivered(table, ctx, fields, y) != None
                && (y == r || (IsFormula(table, r) && Expands(table, Expansion(table, r), y) && table.Find(y).Some?));
              if y != r {
                ExpandsThrough(table, Expansion(table, x), r, y);
              }
            }
          } else {
            NeededThrough(table, x, r, r);
          }
        } else {
          assert r == "id" && NeededBy(table, x, "id");
        }
      }
    }
  }

  // ----- sufficient: equal values -----------------------------------------------------------

  /** The same fields and texts, with possibly another meaning of every function. */
  ghost predicate SameShape(t: Table, table: Table) {
    && |t.entries| == |table.entries| && t.functions == table.functions
    && forall i | 0 <= i < |t.entries| :: SameText(t.entries[i], table.entries[i])
  }

  ghost predicate SameText(e: Entry, d: Entry) {
    e.name == d.name && e.meta.Formula? == d.meta.Formula? && (e.meta.Formula? ==> e.meta.tokens == d.meta.tokens)
  }

  lemma {:induction false} SameFind(t: Table, table: Table, x: Name, i: nat)
    requires SameShape(t, table) && i <= |t.entries|
    ensures t.FindFrom(x, i) == table.FindFrom(x, i)
    decreases |t.entries| - i
  {
    if i < |t.entries| {
      assert SameText(t.entries[i], table.entries[i]);
      SameFind(t, table, x, i + 1);
    }
  }

  lemma {:induction false} SameNonFunctions(t: Table, table: Table, tokens: seq<Name>)
    requires t.functions == table.functions
    ensures t.NonFunctions(tokens) == table.NonFunctions(tokens)
  {
    if tokens != [] {
      SameNonFunctions(t, table, tokens[1..]);
    }
  }

  lemma SameNeeds(t: Table, table: Table, x: Name)
    requires SameShape(t, table)
    ensures t.Find(x) == table.Find(x) && t.Needs(x) == table.Needs(x)
  {
    hide Table.FindFrom, Table.NonFunctions;
    SameFind(t, table, x, 0);
    if table.Find(x).Some? {
      var e, d := t.entries[t.Find(x).value], table.entries[table.Find(x).value];
      assert SameText(e, d);
      if d.meta.Formula? {
        SameNonFunctions(t, table, d.meta.tokens);
      }
    }
  }

  lemma SameRanked(t: Table, table: Table, rank: map<Name, nat>)
    requires SameShape(t, table) && Ranked(table, rank)
    ensures Ranked(t, rank) && forall x :: RankOf(t, rank, x) == RankOf(table, rank, x)
  {
    hide SameShape, Table.Needs, Table.FindFrom;
    forall x ensures t.Find(x) == table.Find(x) && t.Needs(x) == table.Needs(x) {
      SameNeeds(t, table, x);
    }
  }

  lemma {:induction false} SuppliedSameValue(table: Table, rank: map<Name, nat>, ctx: Context,
          fields: seq<Requested>, t: Table, row: Record, x: Name)
    requires Ranked(table, rank) && SameShape(t, table) && Ranked(t, rank) && PlainRow(table, row)
    requires Known(table, rank, x) && Supplied(table, rank, ctx, fields, x)
    ensures Value(t, rank, Fetched(table, ctx, fields, row), x) == Value(t, rank, row, x)
    decreases RankOf(table, rank, x)
  {
    hide Delivered, Fetched, Table.FindFrom, Table.Apply, Table.Reads, SameShape;
    var fetched := Fetched(table, ctx, fields, row);
    SameNeeds(t, table, x);
    FetchedIsDelivered(table, ctx, fields, row, x);
    if table.Find(x).Some? {
      forall r | r in table.Needs(x) ensures Value(t, rank, fetched, r) == Value(t, rank, row, r) {
        SuppliedSameValue(table, rank, ctx, fields, t, row, r);
      }
      SameReadsSameValue(t, rank, fetched, row, x);
    }
  }

  // ----- necessary: a meaning and a row that tell the difference ---------------------------

  /** Different non-negative numbers for all these columns. */
  lemma Numbered(names: set<Name>) returns (row: Record)
    ensures row.Keys == names && forall x | x in names :: 0 <= row[x] < |names|
    ensures forall x, y | x in names && y in names && x != y :: row[x] != row[y]
  {
    if names == {} {
      row := map[];
    } else {
      var x :| x in names;
      var rest := Numbered(names - {x});
      row := rest[x := |names| - 1];
    }
  }

  /** Position of the first of these names that the record does not supply. */
  ghost function FirstBad(table: Table, rank: map<Name, nat>, ctx: Context, fields: seq<Requested>,
          names: seq<Name>): nat
    requires Ranked(table, rank)
  {
    if names == [] || !Supplied(table, rank, ctx, fields, names[0]) then 0
    else 1 + FirstBad(table, rank, ctx, fields, names[1..])
  }

  lemma {:induction false} FirstBadFound(table: Table, rank: map<Name, nat>, ctx: Context, fields: seq<Requested>,
          names: seq<Name>)
    requires Ranked(table, rank) && exists i :: 0 <= i < |names| && !Supplied(table, rank, ctx, fields, names[i])
    ensures FirstBad(table, rank, ctx, fields, names) < |names|
    ensures !Supplied(table, rank, ctx, fields, names[FirstBad(table, rank, ctx, fields, names)])
  {
    hide Supplied, Ranked;
    if Supplied(table, rank, ctx, fields, names[0]) {
      var i :| 0 <= i < |names| && !Supplied(table, rank, ctx, fields, names[i]);
      assert names[1..][i - 1] == names[i];
      FirstBadFound(table, rank, ctx, fields, names[1..]);
    }
  }

  /** Copies the chosen input, or yields -1. */
  function Choose(k: int, inputs: seq<int>): Option<int> {
    if 0 <= k < |inputs| then Some(inputs[k]) else Some(-1)
  }

  /** Which read a field copies: the first one not supplied; none if the field itself is hidden. */
  ghost function Copied(table: Table, rank: map<Name, nat>, ctx: Context, fields: seq<Requested>, e: Entry): int
    requires Ranked(table, rank)
  {
    if Delivered(table, ctx, fields, e.name).Some? then -1
    else FirstBad(table, rank, ctx, fields, table.Reads(e.meta))
  }

  function Copying(m: Meta, k: int): Meta {
    match m
    case Formula(tokens, _) => Formula(tokens, inputs => Choose(k, inputs))
    case Rollup(_) => Rollup(id => Choose(k, [id]))
  }

  /** The table with every field made to copy one of its reads. */
  ghost function Probe(table: Table, rank: map<Name, nat>, ctx: Context, fields: seq<Requested>): (t: Table)
    requires Ranked(table, rank)
    ensures SameShape(t, table)
  {
    Table(seq(|table.entries|, i requires 0 <= i < |table.entries| =>
        Entry(table.entries[i].name,
              Copying(table.entries[i].meta, Copied(table, rank, ctx, fields, table.entries[i])))),
      table.functions)
  }

  /** Every column that the table reads or the report selects, and the identifier. */
  ghost function Columns(table: Table, fields: seq<Requested>): set<Name> {
    var read := set i, r | 0 <= i < |table.entries| && r in table.Reads(table.entries[i].meta) :: r;
    set x | x in read + (set f | f in fields :: f.name) + {"id"} && table.Find(x).None?
  }

  lemma NeedsAreColumns(table: Table, fields: seq<Requested>, x: Name, r: Name)
    requires r in table.Needs(x) && table.Find(r).None?
    ensures r in Columns(table, fields)
  {
    assert r in table.Reads(table.entries[table.Find(x).value].meta);
  }

  lemma ProbeEntry(table: Table, rank: map<Name, nat>, ctx: Context, fields: seq<Requested>, x: Name)
    requires Ranked(table, rank) && table.Find(x).Some?
    ensures var t, e := Probe(table, rank, ctx, fields), table.entries[table.Find(x).value];
      && t.Find(x) == table.Find(x) && t.Needs(x) == table.Needs(x)
      && t.entries[t.Find(x).value].meta == Copying(e.meta, Copied(table, rank, ctx, fields, e))
  {
    hide Copied, Table.FindFrom, Table.Needs, SameShape;
    SameNeeds(Probe(table, rank, ctx, fields), table, x);
  }

  /** On a row with all columns every known field of the probe copies one of its reads, or is -1. */
  lemma ProbeCopies(table: Table, rank: map<Name, nat>, ctx: Context, fields: seq<Requested>, base: Record,
          x: Name)
    requires Ranked(table, rank) && Ranked(Probe(table, rank, ctx, fields), rank)
    requires table.Find(x).Some? && x in rank && x !in base
    ensures var t := Probe(table, rank, ctx, fields);
      var k := Copied(table, rank, ctx, fields, table.entries[table.Find(x).value]);
      Value(t, rank, base, x) ==
        if exists r :: r in table.Needs(x) && Value(t, rank, base, r).None? then None
        else if 0 <= k < |table.Needs(x)| then Value(t, rank, base, table.Needs(x)[k]) else Some(-1)
  {
    hide Table.FindFrom, Copied, Probe, Supplied, Table.NonFunctions;
    ProbeEntry(table, rank, ctx, fields, x);
    var t, needs := Probe(table, rank, ctx, fields), table.Needs(x);
    if forall r | r in needs :: Value(t, rank, base, r).Some? {
      var inputs := seq(|needs|, i requires 0 <= i < |needs| => Value(t, rank, base, needs[i]).value);
      var e := table.entries[table.Find(x).value];
      var m, k := e.meta, Copied(table, rank, ctx, fields, e);
      assert m.Rollup? ==> inputs == [inputs[0]];
      assert t.Apply(Copying(m, k), inputs) == Choose(k, inputs);
      assert Value(t, rank, base, x) == Choose(k, inputs);
    }
  }

  lemma {:induction false} ProbeHasValues(table: Table, rank: map<Name, nat>, ctx: Context,
          fields: seq<Requested>, row: Record, x: Name)
    requires Ranked(table, rank) && Ranked(Probe(table, rank, ctx, fields), rank)
    requires row.Keys == Columns(table, fields) && (x in row || (table.Find(x).Some? && x in rank))
    ensures Value(Probe(table, rank, ctx, fields), rank, row, x).Some?
    decreases RankOf(table, rank, x)
  {
    hide Columns, Probe, Copied, Table.FindFrom, Table.Needs;
    if x in row {
      StoredIsValue(Probe(table, rank, ctx, fields), rank, row, x);
    } else {
      forall r | r in table.Needs(x) ensures Value(Probe(table, rank, ctx, fields), rank, row, r).Some? {
        if table.Find(r).None? {
          NeedsAreColumns(table, fields, x, r);
        }
        ProbeHasValues(table, rank, ctx, fields, row, r);
      }
      ProbeCopies(table, rank, ctx, fields, row, x);
    }
  }

  /** Only columns are delivered: the one asked for, or one that was requested. */
  lemma DeliveredIsColumn(table: Table, ctx: Context, fields: seq<Requested>, x: Name)
    ensures Delivered(table, ctx, fields, x).Some? ==> var n := Delivered(table, ctx, fields, x).value;
      table.Find(n).None? && (n == x || Named(fields, n))
  {
    hide NeededBySome, Table.FindFrom, Permitted;
    var all := Permitted(ctx.access, Physicals(table, fields));
    SourceHasKey(all, |all|, x);
    forall f | f in all ensures f in fields && table.Find(f.name).None? {
      PermittedIsRequested(ctx.access, Physicals(table, fields), f);
    }
  }

  lemma BadRead(table: Table, rank: map<Name, nat>, ctx: Context, fields: seq<Requested>, x: Name)
    requires Ranked(table, rank) && table.Find(x).Some? && x in rank
    requires Delivered(table, ctx, fields, x).None? && !Supplied(table, rank, ctx, fields, x)
    ensures var k := Copied(table, rank, ctx, fields, table.entries[table.Find(x).value]);
      0 <= k < |table.Needs(x)| && !Supplied(table, rank, ctx, fields, table.Needs(x)[k])
  {
    hide Delivered, Table.FindFrom, Table.NonFunctions;
    var needs := table.Needs(x);
    var r :| r in needs && !Supplied(table, rank, ctx, fields, r);
    var i :| 0 <= i < |needs| && needs[i] == r;
    FirstBadFound(table, rank, ctx, fields, needs);
  }

  /** The value of what is not computed: what the record holds. */
  lemma ColumnValue(t: Table, rank: map<Name, nat>, base: Record, x: Name)
    requires Ranked(t, rank) && t.Find(x).None?
    ensures Value(t, rank, base, x) == Get(base, x)
  {
  }

  /** The probe tells any field that is not supplied from what it is on the row. */
  lemma {:induction false} ProbeDiffers(table: Table, rank: map<Name, nat>, ctx: Context, fields: seq<Requested>,
          row: Record, x: Name)
    requires Ranked(table, rank) && Ranked(Probe(table, rank, ctx, fields), rank)
    requires row.Keys == Columns(table, fields) && forall y | y in row :: row[y] >= 0
    requires forall y, z | y in row && z in row && y != z :: row[y] != row[z]
    requires (x in row || (table.Find(x).Some? && x in rank)) && !Supplied(table, rank, ctx, fields, x)
    ensures Value(Probe(table, rank, ctx, fields), rank, Fetched(table, ctx, fields, row), x)
      != Value(Probe(table, rank, ctx, fields), rank, row, x)
    decreases RankOf(table, rank, x)
  {
    hide Probe, Delivered, Fetched, Table.FindFrom, Table.Needs;
    var t, fetched := Probe(table, rank, ctx, fields), Fetched(table, ctx, fields, row);
    FetchedIsDelivered(table, ctx, fields, row, x);
    DeliveredIsColumn(table, ctx, fields, x);
    ProbeHasValues(table, rank, ctx, fields, row, x);
    if x in row {
      SameNeeds(t, table, x);
      ColumnValue(t, rank, fetched, x);
      ColumnValue(t, rank, row, x);
    } else if Delivered(table, ctx, fields, x).Some? {
      assert Delivered(table, ctx, fields, x).value in row;
      StoredIsValue(t, rank, fetched, x);
      ProbeCopies(table, rank, ctx, fields, row, x);
    } else {
      var needs := table.Needs(x);
      var k := Copied(table, rank, ctx, fields, table.entries[table.Find(x).value]);
      ProbeCopies(table, rank, ctx, fields, row, x);
      ProbeCopies(table, rank, ctx, fields, fetched, x);
      BadRead(table, rank, ctx, fields, x);
      if table.Find(needs[k]).None? {
        NeedsAreColumns(table, fields, x, needs[k]);
      }
      ProbeDiffers(table, rank, ctx, fields, row, needs[k]);
    }
  }

  /** The columns a report fetches are enough for a computed field, whatever the row and whatever
      the functions in the formulas mean, exactly if the field is supplied. */
  lemma FetchedColumnsSuffice(table: Table, rank: map<Name, nat>, ctx: Context, fields: seq<Requested>, x: Name)
    requires Ranked(table, rank) && table.Find("id").None? && table.Find(x).Some? && x in rank
    ensures Supplied(table, rank, ctx, fields, x) <==>
      forall t, row | SameShape(t, table) && Ranked(t, rank) && PlainRow(table, row) ::
        Value(t, rank, Fetched(table, ctx, fields, row), x) == Value(t, rank, row, x)
  {
    hide Delivered, Fetched, SameShape, Ranked, PlainRow, Value, Supplied;
    if Supplied(table, rank, ctx, fields, x) {
      forall t, row | SameShape(t, table) && Ranked(t, rank) && PlainRow(table, row)
        ensures Value(t, rank, Fetched(table, ctx, fields, row), x) == Value(t, rank, row, x)
      {
        SuppliedSameValue(table, rank, ctx, fields, t, row, x);
      }
    } else {
      var t := Probe(table, rank, ctx, fields);
      SameRanked(t, table, rank);
      var row := Numbered(Columns(table, fields));
      ColumnsArePlain(table, fields, row);
      ProbeDiffers(table, rank, ctx, fields, row, x);
    }
  }

  lemma ColumnsArePlain(table: Table, fields: seq<Requested>, row: Record)
    requires row.Keys == Columns(table, fields) && table.Find("id").None?
    ensures PlainRow(table, row)
  {
  }

  // ----- what the report shows --------------------------------------------------------------

  /** A supplied formula is shown with its value on the row exactly if its reads were at hand when
      it was evaluated last, and left empty otherwise, unless an alias clashes with something the
      formula depends on. */
  lemma ReportShows(table: Table, rank: map<Name, nat>, ctx: Context, fields: seq<Requested>, row: Record, j: nat,
          zone: iset<Name>)
    requires Ranked(table, rank) && table.Distinct() && PlainRow(table, row)
    requires j < |Outputs(table, fields)| && Clear(table, Outputs(table, fields), j, zone)
    requires forall y | IsFormula(table, y) && y in zone :: Delivered(table, ctx, fields, y).None?
    requires Outputs(table, fields)[j].field in rank && Outputs(table, fields)[j].field in zone
    requires IsFormula(table, Outputs(table, fields)[j].field)
    requires Supplied(table, rank, ctx, fields, Outputs(table, fields)[j].field)
    ensures var outputs, fetched := Outputs(table, fields), Fetched(table, ctx, fields, row);
      Get(Applied(table, outputs, fetched), outputs[j].key) ==
        if AllAtHand(table, rank, Prefilled(table, outputs, fetched), outputs, j, outputs[j].field)
        then Value(table, rank, row, outputs[j].field) else None
  {
    hide Delivered, Fetched, Applied, Prefilled, Clear, Value, Supplied, Ranked, AtHand, Outputs;
    var outputs, fetched := Outputs(table, fields), Fetched(table, ctx, fields, row);
    forall y | y in fetched && y in zone ensures !IsFormula(table, y) {
      FetchedIsDelivered(table, ctx, fields, row, y);
    }
    AppliedExactly(table, rank, outputs, fetched, j, zone);
    SuppliedSameValue(table, rank, ctx, fields, table, row, outputs[j].field);
  }

  // ----- requests that go wrong -------------------------------------------------------------

  function Product(inputs: seq<int>): Option<int> {
    if |inputs| == 2 then Some(inputs[0] * inputs[1]) else None
  }

  /** `total = unit_price * quantity` */
  function LineTotal(): Table {
    Table([Entry("total", Formula(["unit_price", "quantity"], Product))], {})
  }

  lemma LineTotalReads()
    ensures LineTotal().Find("total") == Some(0) && LineTotal().Needs("total") == ["unit_price", "quantity"]
    ensures forall x :: x != "total" ==> LineTotal().Find(x) == None
    ensures LineTotal().Distinct() && Ranked(LineTotal(), map["total" := 1])
  {
    var t := LineTotal();
    var tokens: seq<Name> := ["unit_price", "quantity"];
    assert tokens[1..] == ["quantity"] && tokens[1..][1..] == [];
    assert t.NonFunctions(tokens[1..]) == ["quantity"];
    assert t.NonFunctions(tokens) == tokens;
    forall x | x != "total" ensures t.Find(x) == None {
      assert t.FindFrom(x, 1) == None;
    }
  }

  /** The product of price and quantity, if the record holds both. */
  function TotalOf(record: Record): Option<int> {
    if "unit_price" in record && "quantity" in record then Some(record["unit_price"] * record["quantity"]) else None
  }

  lemma LineTotalEvaluates(record: Record)
    ensures LineTotal().Find("total").Some? && IsFormula(LineTotal(), "total")
    ensures LineTotal().Evaluate(MetaOf(LineTotal(), "total"), record) == TotalOf(record)
  {
    LineTotalReads();
    hide Table.FindFrom, Table.NonFunctions;
    var t := LineTotal();
    var needs := t.Reads(MetaOf(t, "total"));
    assert needs == ["unit_price", "quantity"] && needs[0] in needs && needs[1] in needs;
    if "unit_price" in record && "quantity" in record {
      assert t.Values(needs, record) == [record["unit_price"], record["quantity"]];
    }
  }

  lemma LineTotalValue(row: Record)
    requires "total" !in row && Ranked(LineTotal(), map["total" := 1])
    ensures Value(LineTotal(), map["total" := 1], row, "total") == TotalOf(row)
  {
    LineTotalReads();
    LineTotalEvaluates(row);
    hide Table.FindFrom, Table.NonFunctions, Table.Needs, Table.Evaluate;
    var t, rank := LineTotal(), map["total" := 1];
    ColumnValue(t, rank, row, "unit_price");
    ColumnValue(t, rank, row, "quantity");
    EvaluateIsValue(t, rank, row, row, "total", {"unit_price", "quantity"});
  }

  ghost function TotalZone(): iset<Name> { iset{"total", "unit_price", "quantity"} }

  lemma TotalIsClear()
    ensures Computable(LineTotal(), [Output("total", "total")])
    ensures Clear(LineTotal(), [Output("total", "total")], 0, TotalZone())
  {
    LineTotalReads();
    hide Table.FindFrom, Table.Needs;
  }

  lemma TotalAtHand(base: Record)
    requires Ranked(LineTotal(), map["total" := 1])
    ensures AllAtHand(LineTotal(), map["total" := 1], base, [Output("total", "total")], 0, "total")
  {
    LineTotalReads();
    hide LineTotal, Table.FindFrom, Table.Needs, Ranked, WithinRounds;
    ColumnWithinRounds(LineTotal(), map["total" := 1], base, "unit_price");
    ColumnWithinRounds(LineTotal(), map["total" := 1], base, "quantity");
  }

  /** What a request for the total shows in the end. */
  lemma TotalShown(record: Record)
    requires "total" !in record
    ensures Computable(LineTotal(), [Output("total", "total")])
    ensures Get(Applied(LineTotal(), [Output("total", "total")], record), "total") == TotalOf(record)
  {
    LineTotalReads();
    LineTotalEvaluates(record);
    LineTotalValue(record);
    TotalIsClear();
    hide LineTotal, Applied, Prefilled, Value, TotalOf, Clear, Ranked, AllAtHand, Table.FindFrom, Table.Needs;
    var outputs := [Output("total", "total")];
    TotalAtHand(Prefilled(LineTotal(), outputs, record));
    AppliedExactly(LineTotal(), map["total" := 1], outputs, record, 0, TotalZone());
    assert outputs[0].key == "total";
  }

  /** One more requested field, a column or a computed one. */
  lemma NextField(table: Table, fields: seq<Requested>, f: Requested)
    ensures Physicals(table, fields + [f]) == Physicals(table, fields) + if table.Find(f.name).None? then [f] else []
    ensures Outputs(table, fields + [f]) == if table.Find(f.name).None? then Outputs(table, fields)
      else Assign(Outputs(table, fields), Output(f.Key(), f.name))
  {
    hide Table.FindFrom, Assign, DistinctKeys, Computable;
    assert (fields + [f])[..|fields|] == fields;
  }

  lemma NoFields(table: Table)
    ensures Physicals(table, []) == [] && Outputs(table, []) == []
  {
  }

  lemma {:induction false} OnlyColumns(table: Table, columns: seq<Requested>)
    requires forall f | f in columns :: table.Find(f.name).None?
    ensures Physicals(table, columns) == columns && Outputs(table, columns) == []
  {
    hide Table.FindFrom, Physicals, Outputs;
    if columns == [] {
      NoFields(table);
    } else {
      var front, last := columns[..|columns| - 1], columns[|columns| - 1];
      assert columns == front + [last] && last in columns;
      OnlyColumns(table, front);
      NextField(table, front, last);
    }
  }

  /** Requesting some columns, and then the total. */
  lemma LineTotalRequest(columns: seq<Requested>, total: Requested)
    requires (forall f | f in columns :: f.name != "total") && total.name == "total"
    ensures Physicals(LineTotal(), columns + [total]) == columns
    ensures Outputs(LineTotal(), columns + [total]) == [Output(total.Key(), "total")]
  {
    LineTotalReads();
    hide Table.FindFrom, LineTotal, Physicals, Outputs;
    OnlyColumns(LineTotal(), columns);
    NextField(LineTotal(), columns, total);
    assert columns + [] == columns;
  }

  /** What arrives when the query selects `select` for the requested columns, and nothing is extra. */
  lemma DeliveredFrom(ctx: Context, columns: seq<Requested>, total: Requested, select: seq<Requested>, x: Name)
    requires (forall f | f in columns :: f.name != "total") && total.name == "total"
    requires select == Permitted(ctx.access, columns)
    requires Named(columns, x) || x in ctx.others || x == total.Key() || x == "total"
    ensures Delivered(LineTotal(), ctx, columns + [total], x) == Source(select, |select|, x)
  {
    LineTotalReads();
    LineTotalRequest(columns, total);
    hide LineTotal, Table.FindFrom, Physicals, Outputs, NeededBySome, Source, Permitted;
    var outputs := Outputs(LineTotal(), columns + [total]);
    assert outputs[0] in outputs;
    assert !Extra(LineTotal(), ctx.others, columns + [total], x);
  }

  lemma SelectOne(f: Requested, x: Name)
    ensures Source([f], 1, x) == if ResultKey(f, 0) == x then Some(f.name) else None
  {
  }

  lemma SelectTwo(f: Requested, g: Requested, x: Name)
    ensures Source([f, g], 2, x) ==
      if ResultKey(g, 1) == x then Some(g.name) else if ResultKey(f, 0) == x then Some(f.name) else None
  {
    assert Source([f, g], 1, x) == if ResultKey(f, 0) == x then Some(f.name) else None;
  }

  lemma SelectThree(f: Requested, g: Requested, h: Requested, x: Name)
    ensures Source([f, g, h], 3, x) == if ResultKey(h, 2) == x then Some(h.name) else Source([f, g], 2, x)
  {
    var all, two := [f, g, h], [f, g];
    assert Source(all, 1, x) == Source(two, 1, x);
    assert Source(all, 2, x) == Source(two, 2, x);
  }

  /** The identifier and a described field are selected whoever asks. */
  lemma IdAndOne(access: Access, f: Requested)
    requires f.Described?
    ensures Permitted(access, [Bare("id"), f]) == [Bare("id"), f]
  {
    hide Permitted;
    PermittedOne(access, Bare("id"));
    PermittedDescribed(access, [Bare("id")], f);
    assert [Bare("id")] + [f] == [Bare("id"), f];
  }

  lemma PermittedOne(access: Access, f: Requested)
    ensures Permitted(access, [f]) ==
      if f.Described? || access.Unregistered? || f.name == "id" || f.name in access.readable then [f] else []
  {
    if access.Profile? {
      PermittedNext(access.readable, [], f);
    }
    assert [] + [f] == [f];
  }

  /** The row that the examples work on. */
  function OneItem(): Record { map["id" := 1, "unit_price" := 3, "quantity" := 2, "discount" := 1] }

  lemma OneItemTotal()
    ensures Ranked(LineTotal(), map["total" := 1])
    ensures Value(LineTotal(), map["total" := 1], OneItem(), "total") == Some(6)
  {
    LineTotalReads();
    LineTotalValue(OneItem());
  }

  /** The total is shown as what arrives under the names of price and quantity makes it. */
  lemma TotalFrom(ctx: Context, columns: seq<Requested>)
    requires forall f | f in columns :: f.name != "total"
    requires Delivered(LineTotal(), ctx, columns + [Bare("total")], "total") == None
    ensures var fields := columns + [Bare("total")];
      var fetched := Fetched(LineTotal(), ctx, fields, OneItem());
      Outputs(LineTotal(), fields) == [Output("total", "total")]
      && Get(Applied(LineTotal(), Outputs(LineTotal(), fields), fetched), "total") == TotalOf(fetched)
  {
    hide LineTotal, Delivered, Fetched, Applied, TotalOf, Outputs, OneItem;
    var fields := columns + [Bare("total")];
    LineTotalRequest(columns, Bare("total"));
    FetchedIsDelivered(LineTotal(), ctx, fields, OneItem(), "total");
    TotalShown(Fetched(LineTotal(), ctx, fields, OneItem()));
  }

  /** A column requested under an alias arrives under the alias alone. */
  lemma AliasHidesColumn(access: Access)
    ensures var ctx := Context({}, access);
      var fields := [Bare("id"), Described("unit_price", Some("sum_unit_price"))] + [Bare("total")];
      Outputs(LineTotal(), fields) == [Output("total", "total")]
      && "total" !in Applied(LineTotal(), Outputs(LineTotal(), fields), Fetched(LineTotal(), ctx, fields, OneItem()))
  {
    var ctx, priced := Context({}, access), Described("unit_price", Some("sum_unit_price"));
    var columns := [Bare("id"), priced];
    IdAndOne(access, priced);
    assert priced in columns;
    hide LineTotal, Fetched, Applied, Outputs, Delivered, Source, Permitted;
    forall x | x in ["unit_price", "total"] ensures Delivered(LineTotal(), ctx, columns + [Bare("total")], x) == None {
      DeliveredFrom(ctx, columns, Bare("total"), columns, x);
      SelectTwo(Bare("id"), priced, x);
    }
    TotalFrom(ctx, columns);
    FetchedIsDelivered(LineTotal(), ctx, columns + [Bare("total")], OneItem(), "unit_price");
  }

  lemma GeneratedName(f: Requested, bare: Requested)
    requires f.Described? && f.alias.None? && bare.Bare?
    ensures ResultKey(f, 1) == "expr1" && ResultKey(bare, 0) == bare.name
  {
    assert "expr" + Digits(1) == "expr1";
  }

  /** A column described without an alias arrives under a generated name, the field stays empty. */
  lemma GeneratedNameHidesColumn(access: Access)
    ensures var ctx := Context({}, access);
      var fields := [Bare("id"), Described("unit_price", None)] + [Bare("total")];
      var select := Permitted(access, Physicals(LineTotal(), fields));
      Outputs(LineTotal(), fields) == [Output("total", "total")]
      && Source(select, |select|, "expr1") == Some("unit_price")
      && "total" !in Applied(LineTotal(), Outputs(LineTotal(), fields), Fetched(LineTotal(), ctx, fields, OneItem()))
  {
    var ctx, priced := Context({}, access), Described("unit_price", None);
    var columns := [Bare("id"), priced];
    hide LineTotal, Fetched, Applied, Outputs, Delivered, Source, Permitted, Physicals, ResultKey;
    IdAndOne(access, priced);
    GeneratedName(priced, Bare("id"));
    assert priced in columns;
    LineTotalRequest(columns, Bare("total"));
    SelectTwo(Bare("id"), priced, "expr1");
    forall x | x in ["unit_price", "total"] ensures Delivered(LineTotal(), ctx, columns + [Bare("total")], x) == None {
      DeliveredFrom(ctx, columns, Bare("total"), columns, x);
      SelectTwo(Bare("id"), priced, x);
    }
    TotalFrom(ctx, columns);
    FetchedIsDelivered(LineTotal(), ctx, columns + [Bare("total")], OneItem(), "unit_price");
  }

  /** A column that bears the name of another object's computed field is not fetched. */
  lemma OtherObjectHidesColumn(access: Access)
    ensures var ctx, fields := Context({"quantity"}, access), [Bare("id")] + [Bare("total")];
      Outputs(LineTotal(), fields) == [Output("total", "total")]
      && "total" !in Applied(LineTotal(), Outputs(LineTotal(), fields), Fetched(LineTotal(), ctx, fields, OneItem()))
  {
    var ctx, columns := Context({"quantity"}, access), [Bare("id")];
    PermittedOne(access, Bare("id"));
    hide LineTotal, Fetched, Applied, Outputs, Delivered, Source, Permitted;
    forall x | x in ["quantity", "total"] ensures Delivered(LineTotal(), ctx, columns + [Bare("total")], x) == None {
      DeliveredFrom(ctx, columns, Bare("total"), columns, x);
      SelectOne(Bare("id"), x);
    }
    TotalFrom(ctx, columns);
    FetchedIsDelivered(LineTotal(), ctx, columns + [Bare("total")], OneItem(), "quantity");
  }

  /** A column whose name a computed field takes as its alias is not fetched, and so the field stays
      empty under that alias. */
  lemma OutputKeyHidesColumn(access: Access)
    ensures var ctx, fields := Context({}, access), [Bare("id")] + [Described("total", Some("quantity"))];
      Outputs(LineTotal(), fields) == [Output("quantity", "total")]
      && "quantity" !in Applied(LineTotal(), Outputs(LineTotal(), fields), Fetched(LineTotal(), ctx, fields, OneItem()))
  {
    var ctx, columns, total := Context({}, access), [Bare("id")], Described("total", Some("quantity"));
    PermittedOne(access, Bare("id"));
    hide LineTotal, Fetched, Applied, Outputs, Delivered, Source, Permitted;
    LineTotalRequest(columns, total);
    DeliveredFrom(ctx, columns, total, columns, "quantity");
    SelectOne(Bare("id"), "quantity");
    var fetched := Fetched(LineTotal(), ctx, columns + [total], OneItem());
    FetchedIsDelivered(LineTotal(), ctx, columns + [total], OneItem(), "quantity");
    ColumnsSettled([Output("quantity", "total")], fetched);
    LastEvaluationReads(LineTotal(), [Output("quantity", "total")], fetched, 0, "quantity");
    LineTotalEvaluates(Settled(LineTotal(), [Output("quantity", "total")], fetched));
  }

  /** The fixpoint leaves columns as they are. */
  lemma ColumnsSettled(outputs: seq<Output>, record: Record)
    requires forall o | o in outputs :: o.field == "total"
    ensures Computable(LineTotal(), outputs)
    ensures forall c | c in ["unit_price", "quantity"] ::
      Get(Settled(LineTotal(), outputs, record), c) == Get(record, c)
  {
    LineTotalReads();
    NoRollupsNoPrefill(LineTotal(), outputs, record);
    hide Rounds, Table.FindFrom;
    forall c | c in ["unit_price", "quantity"] ensures Get(Settled(LineTotal(), outputs, record), c) == Get(record, c) {
      RoundsExactly(LineTotal(), map["total" := 1], record, ROUNDS, c);
      ColumnWithinRounds(LineTotal(), map["total" := 1], record, c);
      ColumnValue(LineTotal(), map["total" := 1], record, c);
    }
  }

  /** Not requested itself, the quantity is fetched for the total. */
  lemma QuantityIsExtra(ctx: Context, columns: seq<Requested>)
    requires (forall f | f in columns :: f.name != "total" && f.name != "quantity") && "quantity" !in ctx.others
    requires !AliasOf(columns, "quantity")
    ensures Delivered(LineTotal(), ctx, columns + [Bare("total")], "quantity") == Some("quantity")
  {
    LineTotalReads();
    LineTotalRequest(columns, Bare("total"));
    var t, fields := LineTotal(), columns + [Bare("total")];
    assert "quantity" in t.Needs("total");
    ExpandsDirect(t, Expansion(t, "total"), "quantity");
    hide Table.FindFrom, Table.NonFunctions, Physicals, Outputs, Expands, Permitted;
    assert Needed(t, Expansion(t, "total"), "quantity");
    assert Outputs(t, fields) == [Output("total", "total")];
    assert Output("total", "total") in Outputs(t, fields) && NeededBySome(t, Outputs(t, fields), "quantity");
    assert Extra(t, ctx.others, fields, "quantity");
  }

  /** For a registered object a described field is selected after all bare names, whatever the order
      of the request, so its alias wins over a column of that name: the total is the discount's. */
  lemma AliasOverridesColumn(readable: set<Name>)
    requires "unit_price" in readable
    ensures var ctx := Context({}, Profile(readable));
      var fields := [Bare("id"), Described("discount", Some("unit_price")), Bare("unit_price")] + [Bare("total")];
      Outputs(LineTotal(), fields) == [Output("total", "total")]
      && Get(Applied(LineTotal(), Outputs(LineTotal(), fields), Fetched(LineTotal(), ctx, fields, OneItem())), "total")
        == Some(2)
  {
    var ctx, discount := Context({}, Profile(readable)), Described("discount", Some("unit_price"));
    var columns, select := [Bare("id"), discount, Bare("unit_price")], [Bare("id"), Bare("unit_price"), discount];
    ReorderedSelection(readable, discount);
    assert discount in columns && Bare("unit_price") in columns;
    hide LineTotal, Fetched, Applied, Outputs, Delivered, Source, Permitted;
    forall x | x in ["unit_price", "total"]
      ensures Delivered(LineTotal(), ctx, columns + [Bare("total")], x) ==
        if x == "total" then None else Some("discount")
    {
      if x == "unit_price" {
        assert Named(columns, x);
      }
      DeliveredFrom(ctx, columns, Bare("total"), select, x);
      SelectThree(Bare("id"), Bare("unit_price"), discount, x);
      SelectTwo(Bare("id"), Bare("unit_price"), x);
    }
    QuantityIsExtra(ctx, columns);
    TotalFrom(ctx, columns);
    FetchedIsDelivered(LineTotal(), ctx, columns + [Bare("total")], OneItem(), "unit_price");
    FetchedIsDelivered(LineTotal(), ctx, columns + [Bare("total")], OneItem(), "quantity");
  }

  lemma ReorderedSelection(readable: set<Name>, described: Requested)
    requires "unit_price" in readable && described.Described?
    ensures Permitted(Profile(readable), [Bare("id"), described, Bare("unit_price")])
      == [Bare("id"), Bare("unit_price"), described]
  {
    hide ReadableOf, DescribedOf;
    var id, price := Bare("id"), Bare("unit_price");
    IdReadable(readable);
    PermittedNext(readable, [id], described);
    OneByOne(id, described, price);
    Units(id, described);
    PermittedNext(readable, [id, described], price);
    OneByOne(id, price, described);
  }

  lemma IdReadable(readable: set<Name>)
    ensures ReadableOf([Bare("id")], readable) == [Bare("id")] && DescribedOf([Bare("id")]) == []
  {
    hide ReadableOf, DescribedOf;
    NothingRequested(readable);
    PermittedNext(readable, [], Bare("id"));
    assert [] + [Bare("id")] == [Bare("id")];
  }

  lemma OneByOne<T>(a: T, b: T, c: T)
    ensures [a] + [b] == [a, b] && [a, b] + [c] == [a, b, c]
  {
  }

  lemma Units<T>(a: T, b: T)
    ensures [a] + [] == [a] && [] + [b] == [b] && [b] + [] == [b]
  {
  }

  lemma NothingRequested(readable: set<Name>)
    ensures ReadableOf([], readable) == [] && DescribedOf([]) == []
  {
  }

  lemma DroppedSelection(readable: set<Name>)
    requires "unit_price" !in readable
    ensures Permitted(Profile(readable), [Bare("id"), Bare("unit_price")]) == [Bare("id")]
  {
    hide ReadableOf, DescribedOf;
    IdReadable(readable);
    PermittedNext(readable, [Bare("id")], Bare("unit_price"));
    OneByOne(Bare("id"), Bare("unit_price"), Bare("id"));
    Units(Bare("id"), Bare("id"));
  }

  /** A requested column that the profile may not read is no extra dependency, and is then dropped. */
  lemma UnreadableColumnIsDropped(readable: set<Name>)
    requires "unit_price" !in readable
    ensures var ctx, fields := Context({}, Profile(readable)), [Bare("id"), Bare("unit_price")] + [Bare("total")];
      Outputs(LineTotal(), fields) == [Output("total", "total")]
      && "total" !in Applied(LineTotal(), Outputs(LineTotal(), fields), Fetched(LineTotal(), ctx, fields, OneItem()))
  {
    var ctx, columns := Context({}, Profile(readable)), [Bare("id"), Bare("unit_price")];
    DroppedSelection(readable);
    assert Bare("unit_price") in columns;
    hide LineTotal, Fetched, Applied, Outputs, Delivered, Source, Permitted;
    forall x | x in ["unit_price", "total"] ensures Delivered(LineTotal(), ctx, columns + [Bare("total")], x) == None {
      DeliveredFrom(ctx, columns, Bare("total"), [Bare("id")], x);
      SelectOne(Bare("id"), x);
    }
    TotalFrom(ctx, columns);
    FetchedIsDelivered(LineTotal(), ctx, columns + [Bare("total")], OneItem(), "unit_price");
  }

  /** An alias that names a column which a later output reads: the later one is evaluated with the
      earlier one's value, here 3 * (3 * 2). */
  lemma AliasOverwritesInput()
    ensures var outputs := [Output("quantity", "total"), Output("total", "total")];
      Computable(LineTotal(), outputs) && Get(Applied(LineTotal(), outputs, OneItem()), "quantity") == Some(6)
      && Get(Applied(LineTotal(), outputs, OneItem()), "total") == Some(18)
  {
    var outputs := [Output("quantity", "total"), Output("total", "total")];
    ColumnsSettled(outputs, OneItem());
    var settled := Settled(LineTotal(), outputs, OneItem());
    var second := Written(LineTotal(), outputs, 1, settled);
    LineTotalEvaluates(settled);
    LineTotalEvaluates(second);
    hide LineTotal, Applied, Settled, Written;
    assert outputs[..0] == [] && outputs[..1] == [Output("quantity", "total")];
    assert Output("quantity", "total") in outputs[..1];
    FirstWritten(LineTotal(), outputs, settled);
    LastEvaluationReads(LineTotal(), outputs, OneItem(), 0, "quantity");
    LastEvaluationReads(LineTotal(), outputs, OneItem(), 1, "quantity");
    LastEvaluationReads(LineTotal(), outputs, OneItem(), 1, "unit_price");
  }

  lemma FirstWritten(table: Table, outputs: seq<Output>, settled: Record)
    requires Computable(table, outputs)
    ensures Written(table, outputs, 0, settled) == settled
  {
  }
}
