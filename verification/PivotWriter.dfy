/** The single pass that writes the pivot sheet (data_export/views.py:594-792): it fills one
    grand-total and one subtotal bucket per key while the body rows are written, and pops a
    subtotal bucket when its run of equal prefixes ends.  It produces the sheet of PivotGrid. */
module PivotWriter {
  import opened Prelude
  import opened PivotGrid

  datatype GrandKey = GrandKey(combo: Combo, alias: string)
  datatype SubtotalKey = SubtotalKey(level: nat, prefix: Combo, combo: Combo, alias: string)

  /** The numbers collected so far. */
  type GrandBuckets = map<GrandKey, seq<real>>

  type SubtotalBuckets = map<SubtotalKey, seq<real>>

  /** `d.get(k, [])` */
  function At<K>(m: map<K, seq<real>>, k: K): seq<real> { if k in m then m[k] else [] }

  /** A bucket exists only once a number was put there. */
  ghost predicate NoneEmpty(m: SubtotalBuckets) {
    forall k | k in m :: m[k] != []
  }

  /** The key of a row's own subtotal at one of its levels. */
  ghost predicate Live(row: Combo, k: SubtotalKey) {
    1 <= k.level < |row| && k.prefix == row[..k.level]
  }

  /** `after` is `before` with `num` appended under the row's keys of level below `level`. */
  ghost predicate Added(row: Combo, level: int, combo: Combo, alias: string, num: real,
                        before: SubtotalBuckets, after: SubtotalBuckets) {
    forall k :: At(after, k) ==
      (if Live(row, k) && k.level < level && k.combo == combo && k.alias == alias
       then At(before, k) + [num] else At(before, k))
  }

  /** `after` is `before` with what the row's first `j` fields put under one combination. */
  ghost predicate CellsAdded(grid: Grid, row: Combo, combo: Combo, j: nat,
                             before: SubtotalBuckets, after: SubtotalBuckets)
    requires j <= |grid.values|
  {
    forall k :: At(after, k) ==
      (if Live(row, k) && k.combo == combo then At(before, k) + grid.Puts(row, combo, k.alias, j) else At(before, k))
  }

  ghost predicate GrandCellsAdded(grid: Grid, row: Combo, combo: Combo, j: nat,
                                  before: GrandBuckets, after: GrandBuckets)
    requires j <= |grid.values|
  {
    forall k :: At(after, k) ==
      (if k.combo == combo then At(before, k) + grid.Puts(row, combo, k.alias, j) else At(before, k))
  }

  lemma NothingAdded(grid: Grid, row: Combo, combo: Combo, grand: GrandBuckets, subtotals: SubtotalBuckets)
    ensures GrandCellsAdded(grid, row, combo, 0, grand, grand) && CellsAdded(grid, row, combo, 0, subtotals, subtotals)
  {
  }

  /** What one more field puts under an alias. */
  lemma PutsNext(grid: Grid, row: Combo, combo: Combo, alias: string, j: nat, num: Option<real>)
    requires j < |grid.values| && num == Coerce(grid.CellOf(row, combo, grid.values[j]))
    ensures grid.Puts(row, combo, alias, j + 1) ==
      grid.Puts(row, combo, alias, j) + (if grid.values[j].alias == alias && num.Some? then [num.value] else [])
  {
    hide Grid.CellOf, Coerce;
  }

  /** One more field of the row: a number is appended under the field's alias, or nothing is. */
  lemma NextCell(grid: Grid, row: Combo, combo: Combo, j: nat, num: Option<real>, before: SubtotalBuckets,
                 was: SubtotalBuckets, now: SubtotalBuckets)
    requires j < |grid.values| && num == Coerce(grid.CellOf(row, combo, grid.values[j]))
    requires CellsAdded(grid, row, combo, j, before, was)
    requires if num.Some? then Added(row, |row|, combo, grid.values[j].alias, num.value, was, now) else now == was
    ensures CellsAdded(grid, row, combo, j + 1, before, now)
  {
    hide Grid.CellOf, Coerce, Grid.Puts, At;
    forall k ensures At(now, k) == (if Live(row, k) && k.combo == combo
        then At(before, k) + grid.Puts(row, combo, k.alias, j + 1) else At(before, k))
    {
      PutsNext(grid, row, combo, k.alias, j, num);
      var puts := grid.Puts(row, combo, k.alias, j);
      if num.Some? {
        assert At(before, k) + puts + [num.value] == At(before, k) + (puts + [num.value]);
      } else {
        assert puts + [] == puts;
      }
    }
  }

  lemma NextGrandCell(grid: Grid, row: Combo, combo: Combo, j: nat, num: Option<real>, before: GrandBuckets,
                      was: GrandBuckets, now: GrandBuckets)
    requires j < |grid.values| && num == Coerce(grid.CellOf(row, combo, grid.values[j]))
    requires GrandCellsAdded(grid, row, combo, j, before, was)
    requires var key := GrandKey(combo, grid.values[j].alias);
      if num.Some? then now == was[key := At(was, key) + [num.value]] else now == was
    ensures GrandCellsAdded(grid, row, combo, j + 1, before, now)
  {
    hide Grid.CellOf, Coerce, Grid.Puts;
    GrandCellsNext(grid, row, combo, j, num, before, was, now);
  }

  lemma GrandCellsNext(grid: Grid, row: Combo, combo: Combo, j: nat, num: Option<real>, before: GrandBuckets,
                       was: GrandBuckets, now: GrandBuckets)
    requires j < |grid.values| && num == Coerce(grid.CellOf(row, combo, grid.values[j]))
    requires GrandCellsAdded(grid, row, combo, j, before, was)
    requires forall k | k != GrandKey(combo, grid.values[j].alias) || num.None? :: At(now, k) == At(was, k)
    requires num.Some? ==>
      At(now, GrandKey(combo, grid.values[j].alias)) == At(was, GrandKey(combo, grid.values[j].alias)) + [num.value]
    ensures GrandCellsAdded(grid, row, combo, j + 1, before, now)
  {
    hide Grid.CellOf, Coerce, Grid.Puts, At;
    forall k: GrandKey ensures At(now, k) == (if k.combo == combo
        then At(before, k) + grid.Puts(row, combo, k.alias, j + 1) else At(before, k))
    {
      PutsNext(grid, row, combo, k.alias, j, num);
      var puts := grid.Puts(row, combo, k.alias, j);
      assert k == GrandKey(k.combo, k.alias);
      if num.Some? {
        assert At(before, k) + puts + [num.value] == At(before, k) + (puts + [num.value]);
      } else {
        assert puts + [] == puts;
      }
    }
  }

  /** `after` is `before` with what the whole row puts under the first `ci` combinations. */
  ghost predicate RowAdded(grid: Grid, row: Combo, ci: nat, before: SubtotalBuckets, after: SubtotalBuckets)
    requires ci <= |grid.Cols()|
  {
    forall k :: At(after, k) == (if Live(row, k) && k.combo in grid.Cols()[..ci]
      then At(before, k) + grid.Puts(row, k.combo, k.alias, |grid.values|) else At(before, k))
  }

  ghost predicate GrandRowAdded(grid: Grid, row: Combo, ci: nat, before: GrandBuckets, after: GrandBuckets)
    requires ci <= |grid.Cols()|
  {
    forall k :: At(after, k) == (if k.combo in grid.Cols()[..ci]
      then At(before, k) + grid.Puts(row, k.combo, k.alias, |grid.values|) else At(before, k))
  }

  lemma NextCombination(grid: Grid, row: Combo, ci: nat,
                        before: SubtotalBuckets, was: SubtotalBuckets, now: SubtotalBuckets,
                        grand: GrandBuckets, grandWas: GrandBuckets, grandNow: GrandBuckets)
    requires ci < |grid.Cols()|
    requires RowAdded(grid, row, ci, before, was) && CellsAdded(grid, row, grid.Cols()[ci], |grid.values|, was, now)
    requires GrandRowAdded(grid, row, ci, grand, grandWas)
    requires GrandCellsAdded(grid, row, grid.Cols()[ci], |grid.values|, grandWas, grandNow)
    ensures RowAdded(grid, row, ci + 1, before, now) && GrandRowAdded(grid, row, ci + 1, grand, grandNow)
  {
    hide Grid.Puts, Combos, Truncate, Live;
    var cols := grid.Cols();
    assert cols[..ci + 1] == cols[..ci] + [cols[ci]];
    assert cols[ci] !in cols[..ci];
  }

  // ----- popping --------------------------------------------------------------------------

  /** One of the first `j` value fields carries the alias. */
  ghost predicate HasAlias(grid: Grid, j: nat, alias: string)
    requires j <= |grid.values|
  {
    exists j' | 0 <= j' < j :: grid.values[j'].alias == alias
  }

  /** `after` is `before` without one combination's buckets of the first `j` fields at a prefix. */
  ghost predicate CellsPopped(grid: Grid, prefix: Combo, combo: Combo, j: nat,
                              before: SubtotalBuckets, after: SubtotalBuckets)
    requires j <= |grid.values|
  {
    forall k :: At(after, k) ==
      (if k.level == |prefix| && k.prefix == prefix && k.combo == combo && HasAlias(grid, j, k.alias)
       then [] else At(before, k))
  }

  ghost predicate RowPopped(grid: Grid, prefix: Combo, ci: nat,
                            before: SubtotalBuckets, after: SubtotalBuckets)
    requires ci <= |grid.Cols()|
  {
    forall k :: At(after, k) == (if k.level == |prefix| && k.prefix == prefix && k.combo in grid.Cols()[..ci]
      && HasAlias(grid, |grid.values|, k.alias) then [] else At(before, k))
  }

  lemma NextPop(grid: Grid, prefix: Combo, combo: Combo, j: nat,
                before: SubtotalBuckets, was: SubtotalBuckets)
    requires j < |grid.values| && CellsPopped(grid, prefix, combo, j, before, was)
    ensures var key := SubtotalKey(|prefix|, prefix, combo, grid.values[j].alias);
      && CellsPopped(grid, prefix, combo, j + 1, before, was - {key})
      && At(was, key) == (if grid.FirstOfAlias(j) then At(before, key) else [])
  {
    forall alias ensures HasAlias(grid, j + 1, alias) <==> HasAlias(grid, j, alias) || alias == grid.values[j].alias {
      if alias == grid.values[j].alias {
        assert grid.values[j].alias == alias;
      }
    }
    var key := SubtotalKey(|prefix|, prefix, combo, grid.values[j].alias);
    assert grid.FirstOfAlias(j) <==> !HasAlias(grid, j, key.alias);
    forall k
      ensures k == key <==> k.level == |prefix| && k.prefix == prefix && k.combo == combo && k.alias == key.alias
    {
    }
  }

  lemma NextRowPop(grid: Grid, prefix: Combo, ci: nat,
                   before: SubtotalBuckets, was: SubtotalBuckets, now: SubtotalBuckets)
    requires ci < |grid.Cols()| && RowPopped(grid, prefix, ci, before, was)
    requires CellsPopped(grid, prefix, grid.Cols()[ci], |grid.values|, was, now)
    ensures RowPopped(grid, prefix, ci + 1, before, now)
  {
    hide Combos, Truncate, HasAlias;
    assert grid.Cols()[..ci + 1] == grid.Cols()[..ci] + [grid.Cols()[ci]];
  }

  /** What the subtotal buckets hold after row `i`, its subtotals above `level` already popped. */
  ghost predicate Pending(grid: Grid, i: nat, level: nat, m: SubtotalBuckets)
    requires i < |grid.Rows()|
  {
    forall k :: At(m, k) ==
      (if Live(grid.Rows()[i], k) && k.combo in grid.Cols() && !(k.level > level && grid.Closes(i, k.level))
       then grid.RunPuts(k.level, i, k.combo, k.alias) else [])
  }

  /** What they hold once rows 0..i-1 and their subtotals are written. */
  ghost predicate Open(grid: Grid, i: nat, m: SubtotalBuckets)
    requires i <= |grid.Rows()|
  {
    if i == 0 then forall k :: At(m, k) == [] else Pending(grid, i - 1, 0, m)
  }

  lemma {:induction false} NothingUnderUnknownAlias(grid: Grid, row: Combo, combo: Combo, alias: string, j: nat)
    requires j <= |grid.values| && !HasAlias(grid, |grid.values|, alias)
    ensures grid.Puts(row, combo, alias, j) == []
  {
    if j > 0 {
      NothingUnderUnknownAlias(grid, row, combo, alias, j - 1);
      assert grid.values[j - 1].alias != alias;
    }
  }

  lemma {:induction false} RunUnderUnknownAlias(grid: Grid, level: nat, i: nat, combo: Combo, alias: string)
    requires i < |grid.Rows()| && level <= |grid.rowKeys| && !HasAlias(grid, |grid.values|, alias)
    ensures grid.RunPuts(level, i, combo, alias) == []
    decreases i
  {
    NothingUnderUnknownAlias(grid, grid.Rows()[i], combo, alias, |grid.values|);
    if grid.Continues(i, level) {
      RunUnderUnknownAlias(grid, level, i - 1, combo, alias);
    }
  }

  /** A written body row extends the runs that go on and starts the others. */
  lemma BodyRowPends(grid: Grid, i: nat, before: SubtotalBuckets, after: SubtotalBuckets)
    requires i < |grid.Rows()| && Open(grid, i, before) && |grid.rowKeys| >= 1
    requires RowAdded(grid, grid.Rows()[i], |grid.Cols()|, before, after)
    ensures Pending(grid, i, |grid.rowKeys| - 1, after)
  {
    hide Grid.Puts, Combos, Truncate;
    assert grid.Cols()[..|grid.Cols()|] == grid.Cols();
    forall k ensures At(after, k) == (if Live(grid.Rows()[i], k) && k.combo in grid.Cols()
      then grid.RunPuts(k.level, i, k.combo, k.alias) else [])
    {
      if i > 0 && Live(grid.Rows()[i], k) {
        assert Live(grid.Rows()[i - 1], k) <==> grid.Continues(i, k.level);
      }
      if i > 0 && Live(grid.Rows()[i - 1], k) && !Live(grid.Rows()[i], k) {
        assert grid.Closes(i - 1, k.level);
      }
    }
  }

  /** Popping a level whose run ends, or leaving one whose run goes on. */
  lemma LevelDone(grid: Grid, i: nat, level: nat, before: SubtotalBuckets, after: SubtotalBuckets)
    requires i < |grid.Rows()| && 1 <= level < |grid.rowKeys| && Pending(grid, i, level, before)
    requires if grid.Closes(i, level) then RowPopped(grid, grid.Rows()[i][..level], |grid.Cols()|, before, after)
      else after == before
    ensures Pending(grid, i, level - 1, after)
  {
    hide Grid.Puts, Combos, Truncate, HasAlias, Grid.RunPuts;
    assert grid.Cols()[..|grid.Cols()|] == grid.Cols();
    forall k ensures At(after, k) == (if Live(grid.Rows()[i], k) && k.combo in grid.Cols()
        && !(k.level > level - 1 && grid.Closes(i, k.level)) then grid.RunPuts(k.level, i, k.combo, k.alias) else [])
    {
      if k.level == level && Live(grid.Rows()[i], k) && !HasAlias(grid, |grid.values|, k.alias) {
        RunUnderUnknownAlias(grid, level, i, k.combo, k.alias);
      }
    }
  }

  // ----- combos and index -----------------------------------------------------------------

  method BuildCombos(records: seq<Record>, keys: seq<string>) returns (seen: seq<Combo>)
    ensures seen == Combos(records, keys)
  {
    if keys == [] {
      return [[]];
    }
    seen := [];
    var seenSet: set<Combo> := {};
    for i := 0 to |records|
      invariant seen == DistinctCombos(records[..i], keys)
      invariant forall c :: c in seenSet <==> c in seen
    {
      assert records[..i + 1][..i] == records[..i];
      var t := ComboOf(records[i], keys);
      if t !in seenSet {
        seenSet := seenSet + {t};
        seen := seen + [t];
      }
    }
    assert records[..|records|] == records;
  }

  ghost predicate Indexes(index: map<(Combo, Combo), seq<Record>>, records: seq<Record>, rowKeys: seq<string>,
          colKeys: seq<string>) {
    forall row, col ::
      (if (row, col) in index then index[(row, col)] else []) == Matching(records, rowKeys, colKeys, row, col)
  }

  method BuildIndex(records: seq<Record>, rowKeys: seq<string>, colKeys: seq<string>)
    returns (index: map<(Combo, Combo), seq<Record>>)
    ensures Indexes(index, records, rowKeys, colKeys)
  {
    index := map[];
    for i := 0 to |records|
      invariant Indexes(index, records[..i], rowKeys, colKeys)
    {
      assert records[..i + 1][..i] == records[..i];
      var key := (ComboOf(records[i], rowKeys), ComboOf(records[i], colKeys));
      index := index[key := (if key in index then index[key] else []) + [records[i]]];
    }
    assert records[..|records|] == records;
  }

  // ----- the writer -----------------------------------------------------------------------

  class Writer {
    const grid: Grid
    const rowCombos: seq<Combo>
    const colCombos: seq<Combo>
    const index: map<(Combo, Combo), seq<Record>>
    var grandBuckets: GrandBuckets
    var subtotalBuckets: SubtotalBuckets
    var sheet: seq<Row>

    ghost predicate Valid()
      reads this
    {
      && rowCombos == grid.Rows() && colCombos == grid.Cols()
      && Indexes(index, grid.records, grid.rowKeys, grid.colKeys)
      && (forall c, vf | c in colCombos && vf in grid.values :: GrandKey(c, vf.alias) in grandBuckets)
      && NoneEmpty(subtotalBuckets)
    }

    constructor (grid: Grid, rowCombos: seq<Combo>, colCombos: seq<Combo>, index: map<(Combo, Combo), seq<Record>>)
      requires rowCombos == grid.Rows() && colCombos == grid.Cols()
      requires Indexes(index, grid.records, grid.rowKeys, grid.colKeys)
      ensures Valid() && this.grid == grid && sheet == [] && subtotalBuckets == map[]
      ensures forall k :: At(grandBuckets, k) == []
    {
      this.grid, this.rowCombos, this.colCombos, this.index := grid, rowCombos, colCombos, index;
      grandBuckets := map c, vf | c in colCombos && vf in grid.values :: GrandKey(c, vf.alias) := [];
      subtotalBuckets := map[];
      sheet := [];
    }

    /** A number of row `i` goes to its grand bucket and to the bucket of every prefix level. */
    method AddNumber(row: Combo, combo: Combo, alias: string, num: real)
      requires GrandKey(combo, alias) in grandBuckets
      modifies this`grandBuckets, this`subtotalBuckets
      ensures var key := GrandKey(combo, alias);
        grandBuckets == old(grandBuckets)[key := At(old(grandBuckets), key) + [num]]
      ensures Added(row, |row|, combo, alias, num, old(subtotalBuckets), subtotalBuckets)
      ensures NoneEmpty(old(subtotalBuckets)) ==> NoneEmpty(subtotalBuckets)
    {
      grandBuckets := grandBuckets[GrandKey(combo, alias) := grandBuckets[GrandKey(combo, alias)] + [num]];
      ghost var grand := grandBuckets;
      var level := 1;
      while level < |row|
        invariant 1 <= level && (level <= |row| || level == 1) && grandBuckets == grand
        invariant Added(row, level, combo, alias, num, old(subtotalBuckets), subtotalBuckets)
        invariant NoneEmpty(old(subtotalBuckets)) ==> NoneEmpty(subtotalBuckets)
      {
        var key := SubtotalKey(level, row[..level], combo, alias);
        subtotalBuckets := subtotalBuckets[key := At(subtotalBuckets, key) + [num]];
        level := level + 1;
      }
    }

    /** One value cell: its number, if it has one, goes to the buckets. */
    method WriteCell(row: Combo, combo: Combo, recs: seq<Record>, j: nat,
                     ghost grand: GrandBuckets, ghost subtotals: SubtotalBuckets) returns (e: Entry)
      requires j < |grid.values| && GrandKey(combo, grid.values[j].alias) in grandBuckets
      requires recs == Matching(grid.records, grid.rowKeys, grid.colKeys, row, combo) && NoneEmpty(subtotalBuckets)
      requires GrandCellsAdded(grid, row, combo, j, grand, grandBuckets)
      requires CellsAdded(grid, row, combo, j, subtotals, subtotalBuckets)
      modifies this`grandBuckets, this`subtotalBuckets
      ensures grandBuckets.Keys == old(grandBuckets).Keys && NoneEmpty(subtotalBuckets)
      ensures GrandCellsAdded(grid, row, combo, j + 1, grand, grandBuckets)
      ensures CellsAdded(grid, row, combo, j + 1, subtotals, subtotalBuckets)
      ensures e == Plain(Shown(grid.CellOf(row, combo, grid.values[j])))
    {
      hide FirstValue, Coerce, Shown, CellsAdded, GrandCellsAdded, Added, NoneEmpty, Matching;
      var vf := grid.values[j];
      var value := FirstValue(recs, vf);
      assert value == grid.CellOf(row, combo, vf);
      var num := Coerce(value);
      if num.Some? {
        AddNumber(row, combo, vf.alias, num.value);
      }
      NextCell(grid, row, combo, j, num, subtotals, old(subtotalBuckets), subtotalBuckets);
      NextGrandCell(grid, row, combo, j, num, grand, old(grandBuckets), grandBuckets);
      return Plain(Shown(value));
    }

    /** The value cells of row `i` under one column combination. */
    method WriteCells(i: nat, ci: nat, out: seq<Entry>) returns (out': seq<Entry>)
      requires Valid() && i < |rowCombos| && ci < |colCombos|
      requires out == Cells(ci, 0, |grid.values|, grid.BodyEntries(i))
      modifies this`grandBuckets, this`subtotalBuckets
      ensures Valid() && out' == Cells(ci + 1, 0, |grid.values|, grid.BodyEntries(i))
      ensures GrandCellsAdded(grid, rowCombos[i], colCombos[ci], |grid.values|, old(grandBuckets), grandBuckets)
      ensures CellsAdded(grid, rowCombos[i], colCombos[ci], |grid.values|, old(subtotalBuckets), subtotalBuckets)
    {
      hide CellsAdded, GrandCellsAdded, Combos, Truncate, Available, Grid.Puts, NoneEmpty, Shown, Grid.CellOf;
      out' := out;
      NothingAdded(grid, rowCombos[i], colCombos[ci], grandBuckets, subtotalBuckets);
      var row, combo := rowCombos[i], colCombos[ci];
      var recs := if (row, combo) in index then index[(row, combo)] else [];
      assert recs == Matching(grid.records, grid.rowKeys, grid.colKeys, row, combo);
      for j := 0 to |grid.values|
        invariant Valid() && out' == Cells(ci, j, |grid.values|, grid.BodyEntries(i))
        invariant GrandCellsAdded(grid, row, combo, j, old(grandBuckets), grandBuckets)
        invariant CellsAdded(grid, row, combo, j, old(subtotalBuckets), subtotalBuckets)
      {
        assert combo in colCombos && grid.values[j] in grid.values;
        var e := WriteCell(row, combo, recs, j, old(grandBuckets), old(subtotalBuckets));
        out' := out' + [e];
      }
    }

    /** The body row of row combination `i`, labels only where the prefix changes. */
    method WriteBodyRow(i: nat)
      requires Valid() && i < |rowCombos|
      modifies this
      ensures Valid() && sheet == old(sheet) + [grid.BodyRowAt(i)]
      ensures GrandRowAdded(grid, rowCombos[i], |colCombos|, old(grandBuckets), grandBuckets)
      ensures RowAdded(grid, rowCombos[i], |colCombos|, old(subtotalBuckets), subtotalBuckets)
    {
      hide RowAdded, GrandRowAdded, CellsAdded, GrandCellsAdded, Combos, Truncate, Grid.Puts, Indexes;
      var row := rowCombos[i];
      var labels: seq<Label> := [];
      for level := 0 to |row|
        invariant |labels| == level
        invariant forall l | 0 <= l < level :: labels[l] == grid.BodyLabel(i, l)
      {
        if i > 0 && rowCombos[i - 1][..level + 1] == row[..level + 1] {
          labels := labels + [Blank];
        } else {
          labels := labels + [if row[level] == Null then Blank else Shows(row[level])];
        }
      }
      var out: seq<Entry> := [];
      NoCombination(grid, row, subtotalBuckets, grandBuckets);
      for ci := 0 to |colCombos|
        invariant Valid() && sheet == old(sheet) && out == Cells(ci, 0, |grid.values|, grid.BodyEntries(i))
        invariant GrandRowAdded(grid, row, ci, old(grandBuckets), grandBuckets)
        invariant RowAdded(grid, row, ci, old(subtotalBuckets), subtotalBuckets)
      {
        ghost var grand, subtotals := grandBuckets, subtotalBuckets;
        out := WriteCells(i, ci, out);
        NextCombination(grid, row, ci, old(subtotalBuckets), subtotals, subtotalBuckets,
                        old(grandBuckets), grand, grandBuckets);
      }
      assert labels == grid.BodyRowAt(i).labels;
      sheet := sheet + [Row(BodyRow, labels, out)];
    }

    /** Pops one combination's buckets of a prefix, in the order of the value fields. */
    method PopCells(i: nat, level: nat, ci: nat, out: seq<Entry>) returns (out': seq<Entry>)
      requires Valid() && i < |rowCombos| && ci < |colCombos| && 1 <= level < |grid.rowKeys|
      requires out == Cells(ci, 0, |grid.values|, grid.SubtotalEntries(level, i))
      requires forall j | 0 <= j < |grid.values| ::
        At(subtotalBuckets, SubtotalKey(level, rowCombos[i][..level], colCombos[ci], grid.values[j].alias))
          == grid.RunPuts(level, i, colCombos[ci], grid.values[j].alias)
      modifies this`subtotalBuckets
      ensures Valid() && out' == Cells(ci + 1, 0, |grid.values|, grid.SubtotalEntries(level, i))
      ensures CellsPopped(grid, rowCombos[i][..level], colCombos[ci], |grid.values|,
                          old(subtotalBuckets), subtotalBuckets)
    {
      hide CellsPopped, Combos, Truncate, Grid.RunPuts, Indexes, Grid.FirstOfAlias;
      out' := out;
      var prefix, combo := rowCombos[i][..level], colCombos[ci];
      NothingPopped(grid, prefix, combo, subtotalBuckets);
      for j := 0 to |grid.values|
        invariant Valid() && out' == Cells(ci, j, |grid.values|, grid.SubtotalEntries(level, i))
        invariant CellsPopped(grid, prefix, combo, j, old(subtotalBuckets), subtotalBuckets)
      {
        var key := SubtotalKey(level, prefix, combo, grid.values[j].alias);
        NextPop(grid, prefix, combo, j, old(subtotalBuckets), subtotalBuckets);
        var numbers := At(subtotalBuckets, key);
        subtotalBuckets := subtotalBuckets - {key};
        out' := out' + [Aggregated(numbers, grid.values[j].aggregate)];
      }
    }

    /** The subtotal row of one level after row `i`. */
    method EmitSubtotalRow(i: nat, level: nat)
      requires Valid() && i < |rowCombos| && 1 <= level < |grid.rowKeys| && Pending(grid, i, level, subtotalBuckets)
      modifies this`subtotalBuckets, this`sheet
      ensures Valid() && sheet == old(sheet) + [grid.SubtotalRowAt(level, i)]
      ensures RowPopped(grid, rowCombos[i][..level], |colCombos|, old(subtotalBuckets), subtotalBuckets)
    {
      hide RowPopped, CellsPopped, Combos, Truncate, Grid.RunPuts, Indexes, Pending;
      var row := rowCombos[i];
      var labels: seq<Label> := [];
      for l := 0 to |row|
        invariant |labels| == l
        invariant forall m | 0 <= m < l :: labels[m] == grid.SubtotalLabels(level, i)[m]
      {
        labels := labels + [if l == level then SubtotalOf(row[level - 1]) else Blank];
      }
      assert labels == grid.SubtotalLabels(level, i);
      var out: seq<Entry> := [];
      NoRowPopped(grid, row[..level], subtotalBuckets);
      for ci := 0 to |colCombos|
        invariant Valid() && sheet == old(sheet) && out == Cells(ci, 0, |grid.values|, grid.SubtotalEntries(level, i))
        invariant RowPopped(grid, row[..level], ci, old(subtotalBuckets), subtotalBuckets)
      {
        ghost var was := subtotalBuckets;
        BucketsOfCombination(grid, i, level, ci, old(subtotalBuckets), was);
        out := PopCells(i, level, ci, out);
        NextRowPop(grid, row[..level], ci, old(subtotalBuckets), was, subtotalBuckets);
      }
      sheet := sheet + [Row(SubtotalRow(level), labels, out)];
    }

    /** The subtotal rows that row `i` closes, innermost level first. */
    method EmitSubtotals(i: nat)
      requires Valid() && i < |rowCombos| && grid.HasSubtotals()
      requires Pending(grid, i, |grid.rowKeys| - 1, subtotalBuckets)
      modifies this`subtotalBuckets, this`sheet
      ensures Valid() && sheet == old(sheet) + grid.SubtotalRows(|grid.rowKeys| - 1, i)
      ensures Open(grid, i + 1, subtotalBuckets)
    {
      hide RowPopped, Combos, Truncate, Grid.RunPuts, Indexes, Pending;
      var row := rowCombos[i];
      var level := |row| - 1;
      while level > 0
        invariant Valid() && 0 <= level < |row| && Pending(grid, i, level, subtotalBuckets)
        invariant sheet + grid.SubtotalRows(level, i) == old(sheet) + grid.SubtotalRows(|row| - 1, i)
      {
        ghost var was := subtotalBuckets;
        if i + 1 == |rowCombos| || rowCombos[i + 1][..level] != row[..level] {
          EmitSubtotalRow(i, level);
        }
        LevelDone(grid, i, level, was, subtotalBuckets);
        level := level - 1;
      }
    }

    method WriteGrandTotal()
      requires Valid() && forall c, vf | c in colCombos && vf in grid.values ::
        At(grandBuckets, GrandKey(c, vf.alias)) == grid.AllPuts(|rowCombos|, c, vf.alias)
      modifies this`sheet
      ensures sheet == old(sheet) + grid.GrandRows()
    {
      if !grid.showGrandTotal || (rowCombos == [] && colCombos == []) {
        return;
      }
      var labels: seq<Label> := [];
      for l := 0 to |grid.rowKeys|
        invariant |labels| == l
        invariant forall m | 0 <= m < l :: labels[m] == grid.GrandLabels()[m]
      {
        labels := labels + [if l == 0 then GrandTotal else Blank];
      }
      assert labels == grid.GrandLabels();
      var out: seq<Entry> := [];
      for ci := 0 to |colCombos|
        invariant out == Cells(ci, 0, |grid.values|, grid.GrandEntries())
      {
        for j := 0 to |grid.values|
          invariant out == Cells(ci, j, |grid.values|, grid.GrandEntries())
        {
          var vf := grid.values[j];
          assert colCombos[ci] in colCombos && vf in grid.values;
          out := out + [Aggregated(At(grandBuckets, GrandKey(colCombos[ci], vf.alias)), vf.aggregate)];
        }
      }
      sheet := sheet + [Row(GrandRow, labels, out)];
    }

    method WriteLevelHeader(level: nat)
      requires Valid() && level < |grid.colKeys|
      modifies this`sheet
      ensures sheet == old(sheet) + [Row(HeaderRow, grid.LevelLabels(level),
        Cells(|colCombos|, 0, |grid.values|, grid.LevelEntries(level)))]
    {
      hide Combos, Truncate, Available, Indexes, NoneEmpty;
      var out: seq<Entry> := [];
      for ci := 0 to |colCombos|
        invariant out == Cells(ci, 0, |grid.values|, grid.LevelEntries(level))
      {
        var value := colCombos[ci][level];
        for j := 0 to |grid.values|
          invariant out == Cells(ci, j, |grid.values|, grid.LevelEntries(level))
        {
          out := out + [Plain(if value != Null then value else Text("", None))];
        }
      }
      sheet := sheet + [Row(HeaderRow, grid.LevelLabels(level), out)];
    }

    method WriteTitles()
      requires Valid()
      modifies this`sheet
      ensures sheet == old(sheet) + [grid.TitleRow()]
    {
      hide Combos, Truncate, Available, Indexes, NoneEmpty;
      var titles: seq<Entry> := [];
      for ci := 0 to |colCombos|
        invariant titles == Cells(ci, 0, |grid.values|, grid.TitleEntries())
      {
        for j := 0 to |grid.values|
          invariant titles == Cells(ci, j, |grid.values|, grid.TitleEntries())
        {
          titles := titles + [Title(grid.values[j].name)];
        }
      }
      var labels := seq(|grid.rowKeys|, l requires 0 <= l < |grid.rowKeys| => Heading(grid.rowKeys[l]));
      assert labels == grid.TitleRow().labels;
      sheet := sheet + [Row(HeaderRow, labels, titles)];
    }

    method WriteHeaders()
      requires Valid()
      modifies this`sheet
      ensures sheet == old(sheet) + grid.HeaderRows(|grid.colKeys|) + [grid.TitleRow()]
    {
      hide Combos, Truncate, Available, Indexes, NoneEmpty, Cells, Grid.TitleRow;
      for level := 0 to |grid.colKeys|
        invariant sheet == old(sheet) + grid.HeaderRows(level)
      {
        WriteLevelHeader(level);
      }
      WriteTitles();
    }
  }

  lemma NothingPopped(grid: Grid, prefix: Combo, combo: Combo, m: SubtotalBuckets)
    ensures CellsPopped(grid, prefix, combo, 0, m, m)
  {
  }

  lemma NoRowPopped(grid: Grid, prefix: Combo, m: SubtotalBuckets)
    ensures RowPopped(grid, prefix, 0, m, m)
  {
  }

  /** The buckets of a combination not yet popped hold what its run has put. */
  lemma BucketsOfCombination(grid: Grid, i: nat, level: nat, ci: nat, before: SubtotalBuckets, was: SubtotalBuckets)
    requires i < |grid.Rows()| && ci < |grid.Cols()| && 1 <= level < |grid.rowKeys| && Pending(grid, i, level, before)
    requires RowPopped(grid, grid.Rows()[i][..level], ci, before, was)
    ensures forall j | 0 <= j < |grid.values| ::
      At(was, SubtotalKey(level, grid.Rows()[i][..level], grid.Cols()[ci], grid.values[j].alias))
        == grid.RunPuts(level, i, grid.Cols()[ci], grid.values[j].alias)
  {
    hide Combos, Truncate, Grid.RunPuts, HasAlias;
    forall j | 0 <= j < |grid.values|
      ensures At(was, SubtotalKey(level, grid.Rows()[i][..level], grid.Cols()[ci], grid.values[j].alias))
        == grid.RunPuts(level, i, grid.Cols()[ci], grid.values[j].alias)
    {
      var k := SubtotalKey(level, grid.Rows()[i][..level], grid.Cols()[ci], grid.values[j].alias);
      assert Live(grid.Rows()[i], k) && k.combo in grid.Cols() && k.combo !in grid.Cols()[..ci];
    }
  }

  lemma NoCombination(grid: Grid, row: Combo, subtotals: SubtotalBuckets, grand: GrandBuckets)
    ensures RowAdded(grid, row, 0, subtotals, subtotals) && GrandRowAdded(grid, row, 0, grand, grand)
  {
  }

  // ----- the whole export -----------------------------------------------------------------

  /** Grand buckets after the first `i` rows. */
  ghost predicate GrandHolds(grid: Grid, i: nat, m: GrandBuckets)
    requires i <= |grid.Rows()|
  {
    forall k: GrandKey | k.combo in grid.Cols() :: At(m, k) == grid.AllPuts(i, k.combo, k.alias)
  }

  lemma GrandNext(grid: Grid, i: nat, before: GrandBuckets, after: GrandBuckets)
    requires i < |grid.Rows()| && GrandHolds(grid, i, before)
    requires GrandRowAdded(grid, grid.Rows()[i], |grid.Cols()|, before, after)
    ensures GrandHolds(grid, i + 1, after)
  {
    hide Combos, Truncate, Grid.Puts;
    assert grid.Cols()[..|grid.Cols()|] == grid.Cols();
  }

  /** One turn of the loop over the row combinations. */
  method WriteRow(w: Writer, i: nat)
    requires w.Valid() && i < |w.rowCombos| && GrandHolds(w.grid, i, w.grandBuckets)
    requires w.grid.HasSubtotals() ==> Open(w.grid, i, w.subtotalBuckets)
    modifies w
    ensures w.Valid() && w.sheet == old(w.sheet) + w.grid.RowBlock(i)
    ensures GrandHolds(w.grid, i + 1, w.grandBuckets)
    ensures w.grid.HasSubtotals() ==> Open(w.grid, i + 1, w.subtotalBuckets)
  {
    hide Pending, RowAdded, GrandRowAdded, GrandHolds, Open, Indexes, Combos, Truncate;
    hide Grid.BodyRowAt, Grid.SubtotalRows;
    ghost var grand, subtotals := w.grandBuckets, w.subtotalBuckets;
    w.WriteBodyRow(i);
    GrandNext(w.grid, i, grand, w.grandBuckets);
    if w.grid.showSubtotals && |w.rowCombos[i]| > 1 {
      BodyRowPends(w.grid, i, subtotals, w.subtotalBuckets);
      w.EmitSubtotals(i);
    }
  }

  method WriteBody(w: Writer)
    requires w.Valid() && Open(w.grid, 0, w.subtotalBuckets) && GrandHolds(w.grid, 0, w.grandBuckets)
    modifies w
    ensures w.Valid() && w.sheet == old(w.sheet) + w.grid.BodyRows(|w.rowCombos|)
    ensures GrandHolds(w.grid, |w.rowCombos|, w.grandBuckets)
    ensures w.grid.HasSubtotals() ==> Open(w.grid, |w.rowCombos|, w.subtotalBuckets)
  {
    hide GrandHolds, Open, Indexes, Combos, Truncate, Grid.RowBlock, Grid.HasSubtotals;
    for i := 0 to |w.rowCombos|
      invariant w.Valid() && w.sheet == old(w.sheet) + w.grid.BodyRows(i)
      invariant GrandHolds(w.grid, i, w.grandBuckets)
      invariant w.grid.HasSubtotals() ==> Open(w.grid, i, w.subtotalBuckets)
    {
      WriteRow(w, i);
    }
  }

  lemma GrandComplete(grid: Grid, m: GrandBuckets)
    requires GrandHolds(grid, |grid.Rows()|, m)
    ensures forall c, vf | c in grid.Cols() && vf in grid.values ::
      At(m, GrandKey(c, vf.alias)) == grid.AllPuts(|grid.Rows()|, c, vf.alias)
  {
  }

  /** The one-pass export writes the described sheet, and every subtotal bucket has been popped
      by its end. */
  method ExportPivot(grid: Grid) returns (sheet: seq<Row>, leftover: SubtotalBuckets)
    ensures sheet == grid.Sheet()
    ensures grid.HasSubtotals() ==> leftover == map[]
  {
    hide Grid.AllPuts, Grid.BodyRows, Grid.HeaderRows, Grid.TitleRow, Grid.GrandRows, Indexes, Combos, GrandHolds;
    var rowCombos := BuildCombos(grid.records, grid.rowKeys);
    var colCombos := BuildCombos(grid.records, grid.colKeys);
    var available := Available(|grid.rowKeys|, |grid.values|);
    if |colCombos| > available {
      colCombos := colCombos[..available];
    }
    var index := BuildIndex(grid.records, grid.rowKeys, grid.colKeys);
    var w := new Writer(grid, rowCombos, colCombos, index);
    GrandStart(grid, w.grandBuckets);
    w.WriteHeaders();
    WriteBody(w);
    if grid.HasSubtotals() {
      NothingLeftOpen(grid, w.subtotalBuckets);
    }
    GrandComplete(grid, w.grandBuckets);
    w.WriteGrandTotal();
    return w.sheet, w.subtotalBuckets;
  }

  lemma GrandStart(grid: Grid, m: GrandBuckets)
    requires forall k :: At(m, k) == []
    ensures GrandHolds(grid, 0, m)
  {
  }

  lemma NothingLeftOpen(grid: Grid, m: SubtotalBuckets)
    requires grid.HasSubtotals() && Open(grid, |grid.Rows()|, m) && NoneEmpty(m)
    ensures m == map[]
  {
    hide Grid.RunPuts, Combos;
    forall k ensures k !in m {
      if |grid.Rows()| > 0 && Live(grid.Rows()[|grid.Rows()| - 1], k) {
        assert grid.Closes(|grid.Rows()| - 1, k.level);
      }
      assert At(m, k) == [];
    }
  }
}
