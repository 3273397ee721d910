/** What each cell of the exported pivot sheet shows, told from the records: which combinations have a
    row or a column, what a value cell, a label and a subtotal row hold, and that every total is the
    list of the numbers shown above it. */
module PivotCells {
  import opened Prelude
  import opened PivotGrid
  import opened PivotLaws

  // ----- rows and columns -----------------------------------------------------------------

  /** Each combination is that of a record, and of none before it; the later one's record comes later. */
  ghost predicate FirstSeen(records: seq<Record>, keys: seq<string>, combos: seq<Combo>, at: seq<nat>) {
    && |at| == |combos|
    && (forall k | 0 <= k < |at| :: at[k] < |records| && ComboOf(records[at[k]], keys) == combos[k])
    && (forall k, m | 0 <= k < |at| && 0 <= m < at[k] :: ComboOf(records[m], keys) != combos[k])
    && (forall k, l :: 0 <= k < l < |at| ==> at[k] < at[l])
    && forall m | 0 <= m < |records| :: ComboOf(records[m], keys) in combos
  }

  lemma SeenNext(front: seq<Record>, last: Record, keys: seq<string>, combos: seq<Combo>, at: seq<nat>)
    requires FirstSeen(front, keys, combos, at)
    ensures var c := ComboOf(last, keys);
      if c in combos then FirstSeen(front + [last], keys, combos, at)
      else FirstSeen(front + [last], keys, combos + [c], at + [|front|])
  {
    hide ComboOf;
    var records, c := front + [last], ComboOf(last, keys);
    assert forall m | 0 <= m < |front| :: records[m] == front[m] && ComboOf(front[m], keys) in combos;
    if c !in combos {
      assert forall k | 0 <= k < |combos| :: combos[k] in combos;
    }
  }

  lemma {:induction false} DistinctSeen(records: seq<Record>, keys: seq<string>) returns (at: seq<nat>)
    ensures FirstSeen(records, keys, DistinctCombos(records, keys), at)
  {
    at := [];
    if records != [] {
      hide FirstSeen, ComboOf;
      var front, last := records[..|records| - 1], records[|records| - 1];
      at := DistinctSeen(front, keys);
      SeenNext(front, last, keys, DistinctCombos(front, keys), at);
      assert records == front + [last];
      if ComboOf(last, keys) !in DistinctCombos(front, keys) {
        at := at + [|front|];
      }
    }
  }

  /** The sheet has a row for each combination of row keys, in the order in which records first have
      them; without row keys it has a single one. */
  lemma RowsInOrder(g: Grid) returns (at: seq<nat>)
    ensures if g.rowKeys == [] then g.Rows() == [[]] else FirstSeen(g.records, g.rowKeys, g.Rows(), at)
  {
    hide FirstSeen;
    at := DistinctSeen(g.records, g.rowKeys);
  }

  /** The combinations of the column keys are listed the same way. */
  lemma ColumnsInOrder(g: Grid) returns (at: seq<nat>)
    requires g.colKeys != []
    ensures FirstSeen(g.records, g.colKeys, Combos(g.records, g.colKeys), at)
  {
    hide FirstSeen;
    at := DistinctSeen(g.records, g.colKeys);
  }

  /** The columns are the first combinations of column keys: all of them if they fit into Excel's 16384
      columns, 4 of which stay free, and otherwise as many as do, at least one. */
  lemma ColumnsShown(g: Grid)
    ensures g.colKeys == [] ==> g.Cols() == [[]]
    ensures var all, fields := Combos(g.records, g.colKeys), if g.values == [] then 1 else |g.values|;
      && g.Cols() <= all && (all != [] ==> g.Cols() != [])
      && (|g.rowKeys| + |all| * fields + 4 <= 16384 ==> g.Cols() == all)
      && (g.Cols() != all ==> |g.Cols()| == 1 || |g.rowKeys| + (|g.Cols()| + 1) * fields + 4 > 16384)
  {
    assert g.colKeys == [] ==> Combos(g.records, g.colKeys) == [[]];
    hide Combos;
    var all, fields := Combos(g.records, g.colKeys), if g.values == [] then 1 else |g.values|;
    var room := 16384 - |g.rowKeys| - 4;
    QuotientFits(room, fields, |all|);
    QuotientFits(room, fields, room / fields + 1);
  }

  lemma QuotientFits(room: int, fields: nat, n: int)
    requires fields >= 1
    ensures n * fields <= room <==> n <= room / fields
  {
    assert room == fields * (room / fields) + room % fields;
    if n <= room / fields {
      assert n * fields <= (room / fields) * fields;
    } else {
      assert n * fields >= (room / fields + 1) * fields;
    }
  }

  // ----- value cells ------------------------------------------------------------------------

  predicate Belongs(g: Grid, r: Record, row: Combo, col: Combo) {
    ComboOf(r, g.rowKeys) == row && ComboOf(r, g.colKeys) == col
  }

  function InCell(g: Grid, row: Combo, col: Combo): Record -> bool { (r: Record) => Belongs(g, r, row, col) }

  /** The records of one row and one column combination, in order. */
  lemma {:induction false} MatchingInOrder(g: Grid, row: Combo, col: Combo, n: nat) returns (at: seq<nat>)
    requires n <= |g.records|
    ensures Picked(g.records, n, InCell(g, row, col), at, Matching(g.records[..n], g.rowKeys, g.colKeys, row, col))
  {
    hide ComboOf, Picked;
    if n == 0 {
      at := [];
      PickNothing(g.records, InCell(g, row, col));
    } else {
      at := MatchingInOrder(g, row, col, n - 1);
      var before, r := Matching(g.records[..n - 1], g.rowKeys, g.colKeys, row, col), g.records[n - 1];
      PrefixNext(g.records, n - 1);
      PickNext(g.records, n - 1, InCell(g, row, col), at, before);
      assert Matching(g.records[..n], g.rowKeys, g.colKeys, row, col) ==
        before + if Belongs(g, r, row, col) then [r] else [];
      hide Matching;
      if Belongs(g, r, row, col) {
        at := at + [n - 1];
      } else {
        assert before + [] == before;
      }
    }
  }

  /** What a record displays for a value field: the value under its alias, or else under its name; a
      number where there is one, the text itself, or an empty text. */
  function Displayed(r: Record, vf: ValueField): Cell {
    var value :=
      if vf.alias in r && r[vf.alias] != Null then r[vf.alias] else if vf.name in r then r[vf.name] else Null;
    match value
    case Null => Text("", None)
    case Num(x) => Num(x)
    case Text(s, number) => if s != "" && number.Some? then Num(number.value) else value
  }

  lemma FirstDecides(g: Grid, row: Combo, col: Combo, vf: ValueField, m: nat)
    requires m <= |g.records| && forall n | 0 <= n < m :: !Belongs(g, g.records[n], row, col)
    requires m < |g.records| ==> Belongs(g, g.records[m], row, col)
    ensures Shown(g.CellOf(row, col, vf)) ==
      if m < |g.records| then Displayed(g.records[m], vf) else Text("", None)
  {
    hide Matching, Belongs;
    var at := MatchingInOrder(g, row, col, |g.records|);
    assert g.records[..|g.records|] == g.records;
    if m < |g.records| {
      assert m in at;
      assert at[0] in at && at[0] == m;
    } else {
      HeadIsIn(at);
    }
  }

  lemma HeadIsIn(at: seq<nat>)
    ensures at != [] ==> at[0] in at
  {
  }

  /** What a row holds at a column among its value cells, and at one among its labels. */
  function EntryIn(row: Row, column: nat): Option<Entry> {
    if column < |row.entries| then Some(row.entries[column]) else None
  }

  function LabelIn(row: Row, l: nat): Option<Label> {
    if l < |row.labels| then Some(row.labels[l]) else None
  }

  lemma EntryAt(g: Grid, f: (nat, nat) -> Entry, ci: nat, j: nat)
    requires ci < |g.Cols()| && j < |g.values|
    ensures g.Column(ci, j) < |Cells(|g.Cols()|, 0, |g.values|, f)|
    ensures Cells(|g.Cols()|, 0, |g.values|, f)[g.Column(ci, j)] == f(ci, j)
  {
    hide Combos, Cells, Truncate;
    CellAt(|g.Cols()|, 0, |g.values|, f, ci, j);
  }

  lemma BodyEntryAt(g: Grid, i: nat, ci: nat, j: nat)
    requires i < |g.Rows()| && ci < |g.Cols()| && j < |g.values|
    ensures |BodiesOf(g.Sheet())| == |g.Rows()|
    ensures EntryIn(BodiesOf(g.Sheet())[i], g.Column(ci, j))
      == Some(Plain(Shown(g.CellOf(g.Rows()[i], g.Cols()[ci], g.values[j]))))
  {
    hide Combos, Cells, Truncate, Grid.Sheet, BodiesOf, Grid.Column, Grid.CellOf, Shown;
    BodiesOfSheet(g);
    EntryAt(g, g.BodyEntries(i), ci, j);
  }

  /** Body row `i` shows in the cell of a combination and a field what the first record of that row and
      combination displays, and nothing if there is no record. */
  lemma BodyCellShows(g: Grid, i: nat, ci: nat, j: nat, m: nat)
    requires i < |g.Rows()| && ci < |g.Cols()| && j < |g.values|
    requires m <= |g.records| && forall n | 0 <= n < m :: !Belongs(g, g.records[n], g.Rows()[i], g.Cols()[ci])
    requires m < |g.records| ==> Belongs(g, g.records[m], g.Rows()[i], g.Cols()[ci])
    ensures |BodiesOf(g.Sheet())| == |g.Rows()|
    ensures EntryIn(BodiesOf(g.Sheet())[i], g.Column(ci, j)) ==
      Some(Plain(if m < |g.records| then Displayed(g.records[m], g.values[j]) else Text("", None)))
  {
    hide Combos, Cells, Truncate, Grid.Sheet, BodiesOf, Grid.CellOf, Shown, Displayed, Belongs;
    FirstDecides(g, g.Rows()[i], g.Cols()[ci], g.values[j], m);
    BodyEntryAt(g, i, ci, j);
  }

  // ----- totals are what is shown -------------------------------------------------------------

  /** The numbers that a body row shows under one combination in the first `j` fields of an alias. */
  function NumbersOfRow(g: Grid, row: Row, ci: nat, alias: string, j: nat): seq<real>
    requires j <= |g.values|
  {
    if j == 0 then []
    else
      var before, column := NumbersOfRow(g, row, ci, alias, j - 1), g.Column(ci, j - 1);
      if g.values[j - 1].alias == alias && column < |row.entries| && row.entries[column].Plain?
         && row.entries[column].value.Num?
      then before + [row.entries[column].value.x] else before
  }

  /** The same for several rows, top to bottom. */
  function NumbersOfRows(g: Grid, rows: seq<Row>, ci: nat, alias: string): seq<real> {
    if rows == [] then []
    else
      var last := rows[|rows| - 1];
      NumbersOfRows(g, rows[..|rows| - 1], ci, alias) + NumbersOfRow(g, last, ci, alias, |g.values|)
  }

  lemma ShownIsCoerced(c: Cell)
    ensures Shown(c).Num? <==> Coerce(c).Some?
    ensures Coerce(c).Some? ==> Shown(c) == Num(Coerce(c).value)
  {
  }

  lemma {:induction false} RowNumbers(g: Grid, i: nat, ci: nat, alias: string, j: nat)
    requires i < |g.Rows()| && ci < |g.Cols()| && j <= |g.values|
    ensures NumbersOfRow(g, g.BodyRowAt(i), ci, alias, j) == g.Puts(g.Rows()[i], g.Cols()[ci], alias, j)
    decreases j
  {
    hide Combos, Cells, Truncate, Grid.CellOf, Shown, Coerce, Grid.BodyLabel;
    if j > 0 {
      RowNumbers(g, i, ci, alias, j - 1);
      EntryAt(g, g.BodyEntries(i), ci, j - 1);
      ShownIsCoerced(g.CellOf(g.Rows()[i], g.Cols()[ci], g.values[j - 1]));
    }
  }

  lemma NoRowsNoNumbers(g: Grid, ci: nat, alias: string)
    ensures NumbersOfRows(g, [], ci, alias) == []
  {
  }

  lemma NumbersSnoc(g: Grid, rows: seq<Row>, row: Row, ci: nat, alias: string)
    ensures NumbersOfRows(g, rows + [row], ci, alias)
      == NumbersOfRows(g, rows, ci, alias) + NumbersOfRow(g, row, ci, alias, |g.values|)
  {
    assert (rows + [row])[..|rows|] == rows;
  }

  lemma {:induction false} RowsNumbers(g: Grid, i: nat, ci: nat, alias: string)
    requires i <= |g.Rows()| && ci < |g.Cols()|
    ensures NumbersOfRows(g, BodyList(g, i), ci, alias) == g.AllPuts(i, g.Cols()[ci], alias)
    decreases i
  {
    hide Combos, Truncate, Grid.BodyRowAt, NumbersOfRow, NumbersOfRows, Grid.Puts;
    if i == 0 {
      NoRowsNoNumbers(g, ci, alias);
    } else {
      RowsNumbers(g, i - 1, ci, alias);
      RowNumbers(g, i - 1, ci, alias, |g.values|);
      NumbersSnoc(g, BodyList(g, i - 1), g.BodyRowAt(i - 1), ci, alias);
    }
  }

  lemma {:induction false} NumbersConcat(g: Grid, a: seq<Row>, b: seq<Row>, ci: nat, alias: string)
    ensures NumbersOfRows(g, a + b, ci, alias) == NumbersOfRows(g, a, ci, alias) + NumbersOfRows(g, b, ci, alias)
  {
    hide NumbersOfRow;
    if b == [] {
      assert a + b == a;
    } else {
      var front, last := b[..|b| - 1], b[|b| - 1];
      NumbersConcat(g, a, front, ci, alias);
      assert (a + b)[..|a + b| - 1] == a + front && (a + b)[|a + b| - 1] == last;
    }
  }

  /** The grand total of a column is about the numbers that the body rows show under its combination,
      in the fields of its alias, top to bottom. */
  lemma GrandTotalReadsBody(g: Grid, ci: nat, j: nat)
    requires g.showGrandTotal && ci < |g.Cols()| && j < |g.values|
    ensures var last := g.Sheet()[|g.Sheet()| - 1];
      && last.kind == GrandRow
      && EntryIn(last, g.Column(ci, j)) ==
        Some(Aggregated(NumbersOfRows(g, BodiesOf(g.Sheet()), ci, g.values[j].alias), g.values[j].aggregate))
  {
    hide Combos, Truncate, BodiesOf, NumbersOfRows, Grid.AllPuts, Grid.BodyRows, Grid.HeaderRows, Cells;
    BodiesOfSheet(g);
    RowsNumbers(g, |g.Rows()|, ci, g.values[j].alias);
    EntryAt(g, g.GrandEntries(), ci, j);
  }

  /** From the start of its run to row `i`: the numbers of a subtotal. */
  lemma RunNumbers(g: Grid, level: nat, i: nat, ci: nat, alias: string)
    requires i < |g.Rows()| && level <= |g.rowKeys| && ci < |g.Cols()|
    ensures g.RunPuts(level, i, g.Cols()[ci], alias)
      == NumbersOfRows(g, BodyList(g, |g.Rows()|)[RunStart(g, level, i)..i + 1], ci, alias)
  {
    hide Combos, Truncate, NumbersOfRows, Grid.AllPuts, Grid.RunPuts;
    var start, all := RunStart(g, level, i), BodyList(g, |g.Rows()|);
    RunIsContiguous(g, level, i, g.Cols()[ci], alias);
    RowsNumbers(g, start, ci, alias);
    RowsNumbers(g, i + 1, ci, alias);
    var before, run := all[..start], all[start..i + 1];
    assert BodyList(g, start) == before && BodyList(g, i + 1) == before + run;
    NumbersConcat(g, before, run, ci, alias);
    SameTail(NumbersOfRows(g, before, ci, alias), g.RunPuts(level, i, g.Cols()[ci], alias),
             NumbersOfRows(g, run, ci, alias));
  }

  lemma SameTail(a: seq<real>, b: seq<real>, c: seq<real>)
    requires a + b == a + c
    ensures b == c
  {
    assert b == (a + b)[|a|..] && c == (a + c)[|a|..];
  }

  // ----- labels, and where each row stands ------------------------------------------------------

  /** Rows `i` and `k` agree in their first `level` labels. */
  predicate SamePrefix(g: Grid, i: nat, k: nat, level: nat)
    requires i < |g.Rows()| && k < |g.Rows()| && level <= |g.rowKeys|
  {
    g.Rows()[i][..level] == g.Rows()[k][..level]
  }

  /** The position of body row `i`, or of what follows the last one. */
  function Start(g: Grid, i: nat): nat
    requires i <= |g.Rows()|
  {
    |g.colKeys| + 1 + |g.BodyRows(i)|
  }

  /** A body row repeats no label: it shows a value only where its prefix is not that of the row above. */
  lemma BodyLabelShows(g: Grid, i: nat, l: nat)
    requires i < |g.Rows()| && l < |g.rowKeys|
    ensures |BodiesOf(g.Sheet())| == |g.Rows()|
    ensures LabelIn(BodiesOf(g.Sheet())[i], l) ==
      Some(if (i > 0 && SamePrefix(g, i - 1, i, l + 1)) || g.Rows()[i][l] == Null then Blank
           else Shows(g.Rows()[i][l]))
  {
    hide Combos, Truncate, BodiesOf, Cells, Grid.Sheet;
    BodiesOfSheet(g);
    assert g.BodyRowAt(i).labels[l] == g.BodyLabel(i, l);
  }

  lemma {:induction false} HeaderRowAt(g: Grid, n: nat, level: nat)
    requires level < n <= |g.colKeys|
    ensures |g.HeaderRows(n)| == n
    ensures g.HeaderRows(n)[level] ==
      Row(HeaderRow, g.LevelLabels(level), Cells(|g.Cols()|, 0, |g.values|, g.LevelEntries(level)))
    decreases n
  {
    hide Combos, Truncate, Cells, Grid.LevelLabels;
    if n > 1 {
      HeaderRowAt(g, n - 1, if level < n - 1 then level else 0);
    }
  }

  lemma {:induction false} HeaderCount(g: Grid, n: nat)
    requires n <= |g.colKeys|
    ensures |g.HeaderRows(n)| == n
    decreases n
  {
    hide Combos, Truncate, Cells;
    if n > 0 {
      HeaderCount(g, n - 1);
    }
  }

  /** One header row for each column key: the key over the labels, its values over the cells. */
  lemma HeaderShows(g: Grid, level: nat, ci: nat, j: nat, l: nat)
    requires level < |g.colKeys| && ci < |g.Cols()| && j < |g.values| && l < |g.rowKeys|
    ensures level < |g.Sheet()| && g.Sheet()[level].kind == HeaderRow
    ensures LabelIn(g.Sheet()[level], l) == Some(if l == 0 then Heading(g.colKeys[level]) else Blank)
    ensures EntryIn(g.Sheet()[level], g.Column(ci, j)) ==
      Some(Plain(if g.Cols()[ci][level] == Null then Text("", None) else g.Cols()[ci][level]))
  {
    hide Combos, Truncate, Cells, Grid.BodyRows, Grid.GrandRows, Grid.TitleRow, Grid.HeaderRows;
    HeaderRowAt(g, |g.colKeys|, level);
    EntryAt(g, g.LevelEntries(level), ci, j);
  }

  /** Below them the row keys over the labels and a field's name over each of its cells. */
  lemma TitleShows(g: Grid, ci: nat, j: nat, l: nat)
    requires ci < |g.Cols()| && j < |g.values| && l < |g.rowKeys|
    ensures |g.colKeys| < |g.Sheet()| && g.Sheet()[|g.colKeys|].kind == HeaderRow
    ensures LabelIn(g.Sheet()[|g.colKeys|], l) == Some(Heading(g.rowKeys[l]))
    ensures EntryIn(g.Sheet()[|g.colKeys|], g.Column(ci, j)) == Some(Title(g.values[j].name))
  {
    hide Combos, Truncate, Cells, Grid.BodyRows, Grid.GrandRows, Grid.HeaderRows;
    HeaderCount(g, |g.colKeys|);
    EntryAt(g, g.TitleEntries(), ci, j);
    assert g.Sheet()[|g.colKeys|] == g.TitleRow();
  }

  lemma {:induction false} BodyRowsGrow(g: Grid, i: nat, n: nat)
    requires i <= n <= |g.Rows()|
    ensures g.BodyRows(i) <= g.BodyRows(n)
    decreases n
  {
    hide Combos, Grid.RowBlock;
    if i < n {
      BodyRowsGrow(g, i, n - 1);
    }
  }

  /** The levels whose run row `i` ends, innermost first, up to `top`. */
  lemma {:induction false} LevelsClosed(g: Grid, top: nat, i: nat) returns (levels: seq<nat>)
    requires top < |g.rowKeys| && i < |g.Rows()|
    ensures |levels| == |g.SubtotalRows(top, i)|
    ensures forall k, l :: 0 <= k < l < |levels| ==> levels[k] > levels[l]
    ensures forall level: nat :: level in levels <==>
      1 <= level <= top && (i + 1 == |g.Rows()| || !SamePrefix(g, i, i + 1, level))
    ensures forall k | 0 <= k < |levels| ::
      1 <= levels[k] <= top && g.SubtotalRows(top, i)[k] == g.SubtotalRowAt(levels[k], i)
    decreases top
  {
    hide Combos, Truncate, Grid.SubtotalRowAt;
    levels := [];
    if top > 0 {
      levels := LevelsClosed(g, top - 1, i);
      assert g.Closes(i, top) <==> (i + 1 == |g.Rows()| || !SamePrefix(g, i, i + 1, top));
      var inner := g.SubtotalRows(top - 1, i);
      assert g.SubtotalRows(top, i) == (if g.Closes(i, top) then [g.SubtotalRowAt(top, i)] else []) + inner;
      hide Grid.Closes, SamePrefix, Grid.SubtotalRows, Grid.Rows;
      if g.Closes(i, top) {
        levels := [top] + levels;
      } else {
        assert [] + inner == inner;
      }
    }
  }

  lemma SheetAt(g: Grid, i: nat)
    requires i < |g.Rows()|
    ensures Start(g, 0) == |g.colKeys| + 1 && Start(g, i + 1) == Start(g, i) + |g.RowBlock(i)|
    ensures Start(g, i + 1) <= |g.Sheet()| && g.Sheet()[Start(g, i)..Start(g, i + 1)] == g.RowBlock(i)
  {
    hide Combos, Truncate, Grid.RowBlock, Grid.GrandRows, Grid.TitleRow, Grid.HeaderRows;
    HeaderCount(g, |g.colKeys|);
    BodyRowsGrow(g, i + 1, |g.Rows()|);
    var body := g.BodyRows(|g.Rows()|);
    assert g.BodyRows(i + 1) == g.BodyRows(i) + g.RowBlock(i);
    SliceOfBody(g.HeaderRows(|g.colKeys|) + [g.TitleRow()], body, g.GrandRows(), |g.BodyRows(i)|, |g.BodyRows(i + 1)|);
    assert body[|g.BodyRows(i)|..|g.BodyRows(i + 1)|] == g.BodyRows(i + 1)[|g.BodyRows(i)|..];
  }

  lemma SliceOfBody(a: seq<Row>, b: seq<Row>, c: seq<Row>, x: nat, y: nat)
    requires x <= y <= |b|
    ensures (a + b + c)[|a| + x..|a| + y] == b[x..y]
  {
  }

  lemma SliceAt(rows: seq<Row>, a: nat, b: nat, k: nat)
    requires a + k < b <= |rows|
    ensures rows[a..b][k] == rows[a + k]
  {
  }

  /** After body row `i` come the subtotal rows of the levels whose prefix the next row does not share,
      innermost first, and then the next body row; none if subtotals are off or there is one level. */
  lemma SubtotalsFollow(g: Grid, i: nat) returns (levels: seq<nat>)
    requires i < |g.Rows()|
    ensures Start(g, 0) == |g.colKeys| + 1 && Start(g, i + 1) == Start(g, i) + 1 + |levels| <= |g.Sheet()|
    ensures |BodiesOf(g.Sheet())| == |g.Rows()| && g.Sheet()[Start(g, i)] == BodiesOf(g.Sheet())[i]
    ensures forall k, l :: 0 <= k < l < |levels| ==> levels[k] > levels[l]
    ensures forall level: nat :: level in levels <==>
      g.showSubtotals && 1 <= level < |g.rowKeys| && (i + 1 == |g.Rows()| || !SamePrefix(g, i, i + 1, level))
    ensures forall k | 0 <= k < |levels| ::
      1 <= levels[k] < |g.rowKeys| && g.Sheet()[Start(g, i) + 1 + k] == g.SubtotalRowAt(levels[k], i)
  {
    hide Combos, Truncate, Grid.SubtotalRowAt, Grid.SubtotalRows, Grid.BodyRowAt, SamePrefix, Start;
    hide Grid.Sheet, BodiesOf;
    SheetAt(g, i);
    BodiesOfSheet(g);
    var block := g.RowBlock(i);
    levels := [];
    if g.HasSubtotals() {
      levels := LevelsClosed(g, |g.rowKeys| - 1, i);
    }
    SliceAt(g.Sheet(), Start(g, i), Start(g, i + 1), 0);
    assert block[0] == g.BodyRowAt(i);
    forall k | 0 <= k < |levels| ensures g.Sheet()[Start(g, i) + 1 + k] == g.SubtotalRowAt(levels[k], i) {
      SliceAt(g.Sheet(), Start(g, i), Start(g, i + 1), 1 + k);
      assert block[1 + k] == g.SubtotalRows(|g.rowKeys| - 1, i)[k];
    }
  }

  /** The rows from `from` to `i` share their first labels, and the row before them does not. */
  ghost predicate IsRun(g: Grid, level: nat, from: nat, i: nat)
    requires from <= i < |g.Rows()| && level <= |g.rowKeys|
  {
    (forall k | from <= k <= i :: SamePrefix(g, k, i, level)) && (from == 0 || !SamePrefix(g, from - 1, from, level))
  }

  lemma {:induction false} RunStartIs(g: Grid, level: nat, i: nat, from: nat)
    requires from <= i < |g.Rows()| && level <= |g.rowKeys| && IsRun(g, level, from, i)
    ensures RunStart(g, level, i) == from
    decreases i
  {
    hide Combos;
    if from < i {
      var above: nat := i - 1;
      assert SamePrefix(g, above, i, level);
      forall k | from <= k <= above ensures SamePrefix(g, k, above, level) {
        assert SamePrefix(g, k, i, level);
      }
      RunStartIs(g, level, above, from);
    }
  }

  /** A subtotal row is labelled with the value that its run shares, one column further right ... */
  lemma SubtotalLabelShows(g: Grid, level: nat, i: nat, l: nat)
    requires 1 <= level < |g.rowKeys| && i < |g.Rows()| && l < |g.rowKeys|
    ensures g.SubtotalRowAt(level, i).kind == SubtotalRow(level)
    ensures LabelIn(g.SubtotalRowAt(level, i), l) ==
      Some(if l == level then SubtotalOf(g.Rows()[i][level - 1]) else Blank)
  {
    hide Combos, Truncate, Cells;
  }

  /** ... and is about the numbers that the body rows of the run show under its combination, in the
      fields of its alias; under a repeated alias only the first field's column has them. */
  lemma SubtotalReadsBody(g: Grid, bodies: seq<Row>, level: nat, i: nat, from: nat, ci: nat, j: nat)
    requires bodies == BodiesOf(g.Sheet()) && ci < |g.Cols()| && j < |g.values|
    requires 1 <= level < |g.rowKeys| && from <= i < |g.Rows()| && IsRun(g, level, from, i)
    ensures |bodies| == |g.Rows()|
    ensures EntryIn(g.SubtotalRowAt(level, i), g.Column(ci, j)) == Some(Aggregated(
      if exists k :: 0 <= k < j && g.values[k].alias == g.values[j].alias then []
      else NumbersOfRows(g, bodies[from..i + 1], ci, g.values[j].alias), g.values[j].aggregate))
  {
    hide Combos, Truncate, BodiesOf, Grid.Sheet, NumbersOfRows, Cells, Grid.RunPuts;
    BodiesOfSheet(g);
    RunStartIs(g, level, i, from);
    RunNumbers(g, level, i, ci, g.values[j].alias);
    EntryAt(g, g.SubtotalEntries(level, i), ci, j);
  }

  /** Last comes the grand total, if it is asked for and there is anything at all. */
  lemma GrandRowShows(g: Grid, l: nat)
    ensures |g.Sheet()| == Start(g, |g.Rows()|) +
      if g.showGrandTotal && (g.Rows() != [] || g.Cols() != []) then 1 else 0
    ensures |g.Sheet()| > Start(g, |g.Rows()|) && l < |g.rowKeys| ==>
      var last := g.Sheet()[Start(g, |g.Rows()|)];
      && last.kind == GrandRow && LabelIn(last, l) == Some(if l == 0 then GrandTotal else Blank)
  {
    hide Combos, Truncate, Cells, Grid.BodyRows, Grid.HeaderRows;
    HeaderCount(g, |g.colKeys|);
  }
}
