/** What a reader of the exported pivot sheet can rely on: subtotals partition the grand total,
    the sheet is a bounded rectangle, and the suppressed labels can be filled in again. */
module PivotLaws {
  import opened Prelude
  import opened PivotGrid
  import opened Totals

  // ----- subtotals and grand total --------------------------------------------------------

  /** The list aggregated in one column of a row, if it is a subtotal row of the level. */
  function SubtotalList(row: Row, level: nat, column: nat): seq<seq<real>> {
    if row.kind == SubtotalRow(level) && column < |row.entries| && row.entries[column].Aggregated?
    then [row.entries[column].numbers] else []
  }

  /** The lists aggregated in one column of the subtotal rows of a level, top to bottom. */
  function SubtotalLists(rows: seq<Row>, level: nat, column: nat): seq<seq<real>> {
    if rows == [] then [] else SubtotalList(rows[0], level, column) + SubtotalLists(rows[1..], level, column)
  }

  function Flatten(lists: seq<seq<real>>): seq<real> {
    if lists == [] then [] else lists[0] + Flatten(lists[1..])
  }

  lemma {:induction false} SubtotalListsConcat(a: seq<Row>, b: seq<Row>, level: nat, column: nat)
    ensures SubtotalLists(a + b, level, column) == SubtotalLists(a, level, column) + SubtotalLists(b, level, column)
  {
    hide SubtotalList;
    if a == [] {
      assert a + b == b;
    } else {
      SubtotalListsConcat(a[1..], b, level, column);
      assert (a + b)[1..] == a[1..] + b && (a + b)[0] == a[0];
      var own := SubtotalList(a[0], level, column);
      var rest, later := SubtotalLists(a[1..], level, column), SubtotalLists(b, level, column);
      assert own + (rest + later) == own + rest + later;
    }
  }

  lemma {:induction false} FlattenConcat(a: seq<seq<real>>, b: seq<seq<real>>)
    ensures Flatten(a + b) == Flatten(a) + Flatten(b)
  {
    if a == [] {
      assert a + b == b;
    } else {
      FlattenConcat(a[1..], b);
      assert (a + b)[1..] == a[1..] + b && (a + b)[0] == a[0];
      assert a[0] + (Flatten(a[1..]) + Flatten(b)) == a[0] + Flatten(a[1..]) + Flatten(b);
    }
  }

  lemma {:induction false} NoSubtotals(rows: seq<Row>, level: nat, column: nat)
    requires forall r | r in rows :: r.kind != SubtotalRow(level)
    ensures SubtotalLists(rows, level, column) == []
  {
    if rows != [] {
      NoSubtotals(rows[1..], level, column);
    }
  }

  lemma ListsOfSubtotalRow(g: Grid, top: nat, i: nat, level: nat, ci: nat, j: nat)
    requires i < |g.Rows()| && 1 <= level < |g.rowKeys| && 1 <= top < |g.rowKeys|
    requires ci < |g.Cols()| && j < |g.values|
    ensures SubtotalLists([g.SubtotalRowAt(top, i)], level, g.Column(ci, j)) ==
      if top == level then [g.SubtotalNumbers(level, i, ci, j)] else []
  {
    hide Combos, Truncate, Grid.RunPuts, Cells, Grid.SubtotalLabels, Grid.SubtotalNumbers;
    var row := g.SubtotalRowAt(top, i);
    assert [row][1..] == [];
    CellAt(|g.Cols()|, 0, |g.values|, g.SubtotalEntries(top, i), ci, j);
    assert row.entries[g.Column(ci, j)] == g.SubtotalEntry(top, i, ci, j);
  }

  /** After row `i` there is one subtotal row of a level if the row closes its run, none else. */
  lemma {:induction false} SubtotalsAfterRow(g: Grid, top: nat, i: nat, level: nat, ci: nat, j: nat)
    requires i < |g.Rows()| && 1 <= level < |g.rowKeys| && top < |g.rowKeys|
    requires ci < |g.Cols()| && j < |g.values|
    ensures SubtotalLists(g.SubtotalRows(top, i), level, g.Column(ci, j)) ==
      if level <= top && g.Closes(i, level) then [g.SubtotalNumbers(level, i, ci, j)] else []
    decreases top
  {
    hide Combos, Truncate, Grid.SubtotalRowAt, Grid.SubtotalNumbers, Grid.Closes, Grid.Column;
    if top > 0 {
      SubtotalsAfterRow(g, top - 1, i, level, ci, j);
      ListsOfSubtotalRow(g, top, i, level, ci, j);
      var first := if g.Closes(i, top) then [g.SubtotalRowAt(top, i)] else [];
      SubtotalListsConcat(first, g.SubtotalRows(top - 1, i), level, g.Column(ci, j));
    }
  }

  /** The numbers of the run that row `i - 1` leaves open. */
  function OpenRun(g: Grid, level: nat, i: nat, col: Combo, alias: string): seq<real>
    requires i <= |g.Rows()| && level <= |g.rowKeys|
  {
    if i == 0 || g.Closes(i - 1, level) then [] else g.RunPuts(level, i - 1, col, alias)
  }

  lemma RunSplits(g: Grid, level: nat, i: nat, col: Combo, alias: string)
    requires i < |g.Rows()| && level <= |g.rowKeys|
    ensures g.RunPuts(level, i, col, alias) == OpenRun(g, level, i, col, alias) + g.RowPuts(i, col, alias)
    ensures OpenRun(g, level, i + 1, col, alias) == if g.Closes(i, level) then [] else g.RunPuts(level, i, col, alias)
  {
    hide Combos, Grid.RowPuts;
    if i > 0 {
      assert g.Continues(i, level) <==> !g.Closes(i - 1, level);
    }
  }

  lemma ListsOfBlock(g: Grid, level: nat, i: nat, ci: nat, j: nat)
    requires g.HasSubtotals() && 1 <= level < |g.rowKeys| && i < |g.Rows()|
    requires ci < |g.Cols()| && j < |g.values|
    ensures SubtotalLists(g.RowBlock(i), level, g.Column(ci, j)) ==
      if g.Closes(i, level) then [g.SubtotalNumbers(level, i, ci, j)] else []
  {
    hide Combos, Truncate, Grid.SubtotalRows, Grid.SubtotalNumbers, Grid.Closes, Grid.Column, Cells;
    var subs := g.SubtotalRows(|g.rowKeys| - 1, i);
    SubtotalsAfterRow(g, |g.rowKeys| - 1, i, level, ci, j);
    NoSubtotals([g.BodyRowAt(i)], level, g.Column(ci, j));
    SubtotalListsConcat([g.BodyRowAt(i)], subs, level, g.Column(ci, j));
  }

  /** The subtotals written so far and the run still open make up all numbers so far. */
  lemma {:induction false} SubtotalsSoFar(g: Grid, level: nat, i: nat, ci: nat, j: nat)
    requires g.HasSubtotals() && 1 <= level < |g.rowKeys| && i <= |g.Rows()|
    requires ci < |g.Cols()| && j < |g.values| && g.FirstOfAlias(j)
    ensures Flatten(SubtotalLists(g.BodyRows(i), level, g.Column(ci, j)))
        + OpenRun(g, level, i, g.Cols()[ci], g.values[j].alias)
      == g.AllPuts(i, g.Cols()[ci], g.values[j].alias)
    decreases i
  {
    hide Combos, Truncate, Grid.RowPuts, Grid.RowBlock, Grid.RunPuts, Grid.FirstOfAlias, Grid.Closes, Grid.Column;
    hide OpenRun, Flatten, SubtotalLists, Grid.SubtotalNumbers;
    var c, a := g.Cols()[ci], g.values[j].alias;
    if i == 0 {
      AtStart(g, level, ci, j);
    } else {
      var column, run := g.Column(ci, j), g.RunPuts(level, i - 1, c, a);
      SubtotalsSoFar(g, level, i - 1, ci, j);
      ListsOfBlock(g, level, i - 1, ci, j);
      SubtotalListsConcat(g.BodyRows(i - 1), g.RowBlock(i - 1), level, column);
      var before := SubtotalLists(g.BodyRows(i - 1), level, column);
      var own := SubtotalLists(g.RowBlock(i - 1), level, column);
      FlattenConcat(before, own);
      RunSplits(g, level, i - 1, c, a);
      ListsOfFirstField(g, level, i - 1, ci, j);
      assert own == (if g.Closes(i - 1, level) then [run] else []);
      FlattenAtMostOne(run);
      Regroup(Flatten(before), OpenRun(g, level, i - 1, c, a), g.RowPuts(i - 1, c, a), g.Closes(i - 1, level));
      assert Flatten(own) == if g.Closes(i - 1, level) then run else [];
    }
  }

  lemma Regroup(written: seq<real>, open: seq<real>, row: seq<real>, closes: bool)
    ensures written + (if closes then open + row else []) + (if closes then [] else open + row) == written + open + row
  {
  }

  lemma AtStart(g: Grid, level: nat, ci: nat, j: nat)
    requires level <= |g.rowKeys| && ci < |g.Cols()| && j < |g.values|
    ensures Flatten(SubtotalLists(g.BodyRows(0), level, g.Column(ci, j))) == []
    ensures OpenRun(g, level, 0, g.Cols()[ci], g.values[j].alias) == []
  {
  }

  lemma ListsOfFirstField(g: Grid, level: nat, i: nat, ci: nat, j: nat)
    requires i < |g.Rows()| && level <= |g.rowKeys| && ci < |g.Cols()| && j < |g.values| && g.FirstOfAlias(j)
    ensures g.SubtotalNumbers(level, i, ci, j) == g.RunPuts(level, i, g.Cols()[ci], g.values[j].alias)
  {
  }

  lemma FlattenAtMostOne(run: seq<real>)
    ensures Flatten([run]) == run && Flatten([]) == []
  {
    assert [run][1..] == [];
  }

  lemma HeadersHaveNoSubtotals(g: Grid, n: nat)
    requires n <= |g.colKeys|
    ensures forall r | r in g.HeaderRows(n) :: r.kind == HeaderRow
    decreases n
  {
    if n > 0 {
      HeadersHaveNoSubtotals(g, n - 1);
    }
  }

  /** The numbers of the grand total's own column. */
  function GrandNumbers(g: Grid, ci: nat, j: nat): seq<real>
    requires ci < |g.Cols()| && j < |g.values|
  {
    g.AllPuts(|g.Rows()|, g.Cols()[ci], g.values[j].alias)
  }

  /** In the sheet, the subtotal rows of any level split the grand total's numbers of a column
      into consecutive pieces: nothing is missing and nothing is counted twice. */
  lemma SubtotalsPartitionGrandTotal(g: Grid, level: nat, ci: nat, j: nat)
    requires g.HasSubtotals() && 1 <= level < |g.rowKeys|
    requires ci < |g.Cols()| && j < |g.values| && g.FirstOfAlias(j)
    ensures Flatten(SubtotalLists(g.Sheet(), level, g.Column(ci, j))) == GrandNumbers(g, ci, j)
  {
    hide Combos, Truncate, Grid.RunPuts, Cells, Grid.FirstOfAlias, Grid.AllPuts, Grid.BodyRows, Grid.Sheet;
    SheetLists(g, level, ci, j);
    SubtotalsSoFar(g, level, |g.Rows()|, ci, j);
    assert |g.Rows()| > 0 ==> g.Closes(|g.Rows()| - 1, level);
  }

  /** With a repeated alias the law fails in the later field's column: its subtotals are empty,
      so they match the grand total only if no number was put under the alias at all. */
  lemma RepeatedAliasLosesSubtotals(g: Grid, level: nat, ci: nat, j: nat)
    requires g.HasSubtotals() && 1 <= level < |g.rowKeys| && ci < |g.Cols()| && j < |g.values|
    ensures Flatten(SubtotalLists(g.Sheet(), level, g.Column(ci, j))) == GrandNumbers(g, ci, j)
      <==> (g.FirstOfAlias(j) || GrandNumbers(g, ci, j) == [])
  {
    if g.FirstOfAlias(j) {
      SubtotalsPartitionGrandTotal(g, level, ci, j);
    } else {
      SheetLists(g, level, ci, j);
      EmptyLists(g, level, |g.Rows()|, ci, j);
    }
  }

  /** Only the body holds subtotal rows. */
  lemma SheetLists(g: Grid, level: nat, ci: nat, j: nat)
    requires 1 <= level < |g.rowKeys| && ci < |g.Cols()| && j < |g.values|
    ensures SubtotalLists(g.Sheet(), level, g.Column(ci, j))
      == SubtotalLists(g.BodyRows(|g.Rows()|), level, g.Column(ci, j))
  {
    hide Combos, Truncate, Grid.Column, Cells, Grid.BodyRows, Grid.HeaderRows;
    var column := g.Column(ci, j);
    var headers := g.HeaderRows(|g.colKeys|) + [g.TitleRow()];
    HeadersHaveNoSubtotals(g, |g.colKeys|);
    NoSubtotals(headers, level, column);
    NoSubtotals(g.GrandRows(), level, column);
    SubtotalListsConcat(headers, g.BodyRows(|g.Rows()|), level, column);
    SubtotalListsConcat(headers + g.BodyRows(|g.Rows()|), g.GrandRows(), level, column);
  }

  lemma {:induction false} EmptyLists(g: Grid, level: nat, i: nat, ci: nat, j: nat)
    requires g.HasSubtotals() && 1 <= level < |g.rowKeys| && i <= |g.Rows()|
    requires ci < |g.Cols()| && j < |g.values| && !g.FirstOfAlias(j)
    ensures Flatten(SubtotalLists(g.BodyRows(i), level, g.Column(ci, j))) == []
    decreases i
  {
    hide Combos, Truncate, Grid.Column, Grid.RowBlock, Grid.Closes, SubtotalLists;
    if i == 0 {
      AtStart(g, level, ci, j);
    } else {
      EmptyLists(g, level, i - 1, ci, j);
      ListsOfBlock(g, level, i - 1, ci, j);
      var column := g.Column(ci, j);
      SubtotalListsConcat(g.BodyRows(i - 1), g.RowBlock(i - 1), level, column);
      FlattenConcat(SubtotalLists(g.BodyRows(i - 1), level, column), SubtotalLists(g.RowBlock(i - 1), level, column));
      FlattenAtMostOne([]);
    }
  }

  /** One record, grouped by region and city, with its amount summed and counted under one alias. */
  function OneAmount(amount: real): Grid {
    var r: Record := map["region" := Cell.Num(1.0), "city" := Cell.Num(2.0), "amount" := Cell.Num(amount)];
    var values := [ValueField("amount", "total", SumAgg), ValueField("amount", "total", CountAgg)];
    Grid([r], ["region", "city"], [], values, true, true)
  }

  /** The grid of one record. */
  lemma OneRecord(r: Record, keys: seq<string>, rowKeys: seq<string>, colKeys: seq<string>)
    ensures DistinctCombos([r], keys) == [ComboOf(r, keys)]
    ensures Matching([r], rowKeys, colKeys, ComboOf(r, rowKeys), ComboOf(r, colKeys)) == [r]
  {
    assert [r][..0] == [] && [r][|[r]| - 1] == r;
    assert DistinctCombos([], keys) == [] && [] + [ComboOf(r, keys)] == [ComboOf(r, keys)];
  }

  lemma OneAmountRows(amount: real)
    ensures OneAmount(amount).Rows() == [[Cell.Num(1.0), Cell.Num(2.0)]] && OneAmount(amount).Cols() == [[]]
    ensures forall vf | vf in OneAmount(amount).values ::
      OneAmount(amount).CellOf([Cell.Num(1.0), Cell.Num(2.0)], [], vf) == Cell.Num(amount)
  {
    hide DistinctCombos, Matching;
    var g := OneAmount(amount);
    var r := g.records[0];
    OneRecord(r, g.rowKeys, g.rowKeys, g.colKeys);
    assert ComboOf(r, g.rowKeys) == [Cell.Num(1.0), Cell.Num(2.0)] && ComboOf(r, g.colKeys) == [];
  }

  /** The count's subtotals stay empty although its grand total does not. */
  lemma RepeatedAliasExample(amount: real)
    ensures var g := OneAmount(amount);
      g.HasSubtotals() && |g.Cols()| == 1 && GrandNumbers(g, 0, 1) == [amount, amount]
      && Flatten(SubtotalLists(g.Sheet(), 1, g.Column(0, 1))) == []
  {
    var g := OneAmount(amount);
    OneAmountRows(amount);
    hide Combos, Truncate, Cells, SubtotalLists;
    hide Grid.Column, Grid.CellOf, Grid.BodyRows, Grid.Sheet, Grid.Rows, Grid.Cols;
    var row := [Cell.Num(1.0), Cell.Num(2.0)];
    assert g.Puts(row, [], "total", 1) == [amount];
    assert g.Puts(row, [], "total", 2) == [amount, amount];
    assert g.AllPuts(1, [], "total") == [] + [amount, amount];
    assert !g.FirstOfAlias(1) by { assert g.values[0].alias == g.values[1].alias; }
    SheetLists(g, 1, 0, 1);
    EmptyLists(g, 1, |g.Rows()|, 0, 1);
  }

  /** The first row of the run of equal prefixes that contains row `i`. */
  function RunStart(g: Grid, level: nat, i: nat): (start: nat)
    requires i < |g.Rows()| && level <= |g.rowKeys|
    ensures start <= i && !g.Continues(start, level)
    decreases i
  {
    if g.Continues(i, level) then RunStart(g, level, i - 1) else i
  }

  /** A subtotal covers exactly the rows of one contiguous run: the same prefix further up, with
      another one in between, is not mixed in. */
  lemma {:induction false} RunIsContiguous(g: Grid, level: nat, i: nat, col: Combo, alias: string)
    requires i < |g.Rows()| && level <= |g.rowKeys|
    ensures forall k | RunStart(g, level, i) <= k <= i :: g.Rows()[k][..level] == g.Rows()[i][..level]
    ensures g.AllPuts(RunStart(g, level, i), col, alias) + g.RunPuts(level, i, col, alias)
      == g.AllPuts(i + 1, col, alias)
    decreases i
  {
    hide Combos, Grid.RowPuts;
    if g.Continues(i, level) {
      RunIsContiguous(g, level, i - 1, col, alias);
      var before := g.AllPuts(RunStart(g, level, i), col, alias);
      Assoc(before, g.RunPuts(level, i - 1, col, alias), g.RowPuts(i, col, alias));
    } else {
      assert [] + g.RowPuts(i, col, alias) == g.RowPuts(i, col, alias);
    }
  }

  // ----- what the aggregates of the pieces give ------------------------------------------

  /** `_aggregate` of a non-empty list, before rounding. */
  function Aggregate(xs: seq<real>, agg: Agg): real
    requires xs != []
  {
    match agg
    case SumAgg => Sum(xs)
    case CountAgg => |xs| as real
    case MinAgg => Min(xs)
    case MaxAgg => Max(xs)
    case AvgAgg => Sum(xs) / |xs| as real
  }

  /** The aggregates of the non-empty pieces; an empty piece is written as a blank cell. */
  function Pieces(lists: seq<seq<real>>, agg: Agg): seq<real> {
    if lists == [] then []
    else (if lists[0] == [] then [] else [Aggregate(lists[0], agg)]) + Pieces(lists[1..], agg)
  }

  /** How the aggregates of pieces are themselves put together. */
  function Outer(agg: Agg): Agg {
    if agg == CountAgg then SumAgg else agg
  }

  /** Sum, count, minimum and maximum of all numbers follow from those of the pieces. */
  lemma {:induction false} PiecesGiveTotal(lists: seq<seq<real>>, agg: Agg)
    requires agg != AvgAgg
    ensures Pieces(lists, agg) == [] <==> Flatten(lists) == []
    ensures Flatten(lists) != [] ==> Aggregate(Pieces(lists, agg), Outer(agg)) == Aggregate(Flatten(lists), agg)
  {
    if lists != [] {
      PiecesGiveTotal(lists[1..], agg);
      var rest, flat := Pieces(lists[1..], agg), Flatten(lists[1..]);
      if lists[0] != [] {
        var own := Aggregate(lists[0], agg);
        assert Pieces(lists, agg) == [own] + rest && Flatten(lists) == lists[0] + flat;
        assert [own][1..] == [] && [own] + [] == [own];
        if flat == [] {
          assert lists[0] + flat == lists[0];
        } else {
          SumConcat([own], rest);
          MinConcat([own], rest);
          SumConcat(lists[0], flat);
          MinConcat(lists[0], flat);
        }
      } else {
        assert Pieces(lists, agg) == rest && Flatten(lists) == flat;
      }
    }
  }

  /** In every column the subtotals of any level aggregate to the grand total. */
  lemma SubtotalsGiveGrandTotal(g: Grid, level: nat, ci: nat, j: nat, agg: Agg)
    requires g.HasSubtotals() && 1 <= level < |g.rowKeys| && agg != AvgAgg
    requires ci < |g.Cols()| && j < |g.values| && g.FirstOfAlias(j) && GrandNumbers(g, ci, j) != []
    ensures var pieces := Pieces(SubtotalLists(g.Sheet(), level, g.Column(ci, j)), agg);
      pieces != [] && Aggregate(pieces, Outer(agg)) == Aggregate(GrandNumbers(g, ci, j), agg)
  {
    SubtotalsPartitionGrandTotal(g, level, ci, j);
    PiecesGiveTotal(SubtotalLists(g.Sheet(), level, g.Column(ci, j)), agg);
  }

  // ----- the shape of the sheet -----------------------------------------------------------

  /** The common width of all rows. */
  function SheetWidth(g: Grid): nat { |g.rowKeys| + |g.Cols()| * |g.values| }

  lemma {:induction false} BodyWidths(g: Grid, i: nat)
    requires i <= |g.Rows()|
    ensures forall r | r in g.BodyRows(i) :: Width(r) == SheetWidth(g)
    decreases i
  {
    hide Combos, Truncate, Grid.SubtotalRows;
    if i > 0 {
      BodyWidths(g, i - 1);
      if g.HasSubtotals() {
        SubtotalWidths(g, |g.rowKeys| - 1, i - 1);
      }
      var block := g.RowBlock(i - 1);
      assert Width(g.BodyRowAt(i - 1)) == SheetWidth(g);
      assert forall r | r in block :: Width(r) == SheetWidth(g);
    }
  }

  lemma {:induction false} SubtotalWidths(g: Grid, top: nat, i: nat)
    requires i < |g.Rows()| && top < |g.rowKeys|
    ensures forall r | r in g.SubtotalRows(top, i) :: Width(r) == SheetWidth(g)
    decreases top
  {
    if top > 0 {
      SubtotalWidths(g, top - 1, i);
    }
  }

  lemma {:induction false} HeaderWidths(g: Grid, n: nat)
    requires n <= |g.colKeys|
    ensures forall r | r in g.HeaderRows(n) :: Width(r) == SheetWidth(g)
    decreases n
  {
    if n > 0 {
      HeaderWidths(g, n - 1);
    }
  }

  /** Every row of the sheet is equally wide. */
  lemma SheetIsRectangular(g: Grid)
    ensures forall r | r in g.Sheet() :: Width(r) == SheetWidth(g)
  {
    BodyWidths(g, |g.Rows()|);
    HeaderWidths(g, |g.colKeys|);
  }

  lemma ProductBound(labels: nat, fields: nat, combos: nat)
    requires labels + fields + SAFETY_MARGIN <= EXCEL_MAX_COLS && combos <= Available(labels, fields)
    ensures labels + combos * fields + SAFETY_MARGIN <= EXCEL_MAX_COLS
  {
    if fields > 0 {
      var room := EXCEL_MAX_COLS - labels - SAFETY_MARGIN;
      assert room / fields >= 1;
      assert combos * fields <= (room / fields) * fields;
    }
  }

  /** The truncated sheet fits Excel's column limit whenever the labels, one value per field and
      the safety margin do, and then keeps the margin free. */
  lemma SheetFitsExcel(g: Grid)
    requires |g.rowKeys| + |g.values| + 4 <= 16384
    ensures SheetWidth(g) + 4 <= 16384
  {
    hide Combos, Truncate, Available;
    ProductBound(|g.rowKeys|, |g.values|, |g.Cols()|);
  }

  // ----- reading the labels back ----------------------------------------------------------

  /** What a label cell shows when it is read: nothing, or a value. */
  function Reading(l: Label): Option<Cell> {
    match l
    case Shows(Text(s, n)) => if s == "" then None else Some(Text(s, n))
    case Shows(value) => Some(value)
    case _ => None
  }

  /** The body rows of a sheet, in order. */
  function BodiesOf(rows: seq<Row>): seq<Row> {
    if rows == [] then []
    else
      var later := BodiesOf(rows[1..]);
      if rows[0].kind == BodyRow then [rows[0]] + later else later
  }

  /** Filling a blank label cell with what the cell above it reads. */
  function FillDown(rows: seq<Row>, i: nat, level: nat): Option<Cell>
    requires i < |rows| && forall k | 0 <= k < |rows| :: level < |rows[k].labels|
    decreases i
  {
    match Reading(rows[i].labels[level])
    case Some(value) => Some(value)
    case None => if i == 0 then None else FillDown(rows, i - 1, level)
  }

  lemma {:induction false} BodiesConcat(a: seq<Row>, b: seq<Row>)
    ensures BodiesOf(a + b) == BodiesOf(a) + BodiesOf(b)
  {
    if a == [] {
      assert a + b == b;
    } else {
      BodiesConcat(a[1..], b);
      assert (a + b)[1..] == a[1..] + b && (a + b)[0] == a[0];
      var own := if a[0].kind == BodyRow then [a[0]] else [];
      assert own + (BodiesOf(a[1..]) + BodiesOf(b)) == own + BodiesOf(a[1..]) + BodiesOf(b);
    }
  }

  lemma {:induction false} NoBodies(rows: seq<Row>)
    requires forall r | r in rows :: r.kind != BodyRow
    ensures BodiesOf(rows) == []
  {
    if rows != [] {
      NoBodies(rows[1..]);
    }
  }

  lemma {:induction false} SubtotalsAreNoBodies(g: Grid, top: nat, i: nat)
    requires i < |g.Rows()| && top < |g.rowKeys|
    ensures forall r | r in g.SubtotalRows(top, i) :: r.kind != BodyRow
    decreases top
  {
    if top > 0 {
      SubtotalsAreNoBodies(g, top - 1, i);
    }
  }

  lemma {:induction false} BodiesOfBlock(g: Grid, i: nat)
    requires i < |g.Rows()|
    ensures BodiesOf(g.RowBlock(i)) == [g.BodyRowAt(i)]
  {
    var body := g.BodyRowAt(i);
    if g.HasSubtotals() {
      SubtotalsAreNoBodies(g, |g.rowKeys| - 1, i);
      NoBodies(g.SubtotalRows(|g.rowKeys| - 1, i));
    }
    assert g.RowBlock(i)[0] == body;
    assert g.RowBlock(i)[1..] == if g.HasSubtotals() then g.SubtotalRows(|g.rowKeys| - 1, i) else [];
  }

  /** The first `i` body rows. */
  function BodyList(g: Grid, i: nat): (out: seq<Row>)
    requires i <= |g.Rows()|
    ensures |out| == i && forall k | 0 <= k < i :: out[k] == g.BodyRowAt(k)
  {
    if i == 0 then [] else BodyList(g, i - 1) + [g.BodyRowAt(i - 1)]
  }

  lemma {:induction false} BodiesSoFar(g: Grid, i: nat)
    requires i <= |g.Rows()|
    ensures BodiesOf(g.BodyRows(i)) == BodyList(g, i)
    decreases i
  {
    hide Grid.BodyRowAt, Grid.RowBlock, Combos, BodiesOf;
    if i == 0 {
      NoBodies([]);
    } else {
      BodiesSoFar(g, i - 1);
      BodiesOfBlock(g, i - 1);
      BodiesConcat(g.BodyRows(i - 1), g.RowBlock(i - 1));
    }
  }

  /** The sheet has one body row per row combination, in order. */
  lemma BodiesOfSheet(g: Grid)
    ensures BodiesOf(g.Sheet()) == BodyList(g, |g.Rows()|)
  {
    hide Grid.BodyRowAt, Combos, Cells;
    var headers := g.HeaderRows(|g.colKeys|) + [g.TitleRow()];
    HeadersHaveNoSubtotals(g, |g.colKeys|);
    NoBodies(headers);
    NoBodies(g.GrandRows());
    BodiesConcat(headers, g.BodyRows(|g.Rows()|));
    BodiesConcat(headers + g.BodyRows(|g.Rows()|), g.GrandRows());
    BodiesSoFar(g, |g.Rows()|);
  }

  /** No label is None or empty. */
  ghost predicate LabelsPresent(g: Grid) {
    forall i, level | 0 <= i < |g.Rows()| && 0 <= level < |g.rowKeys| ::
      Reading(Shows(g.Rows()[i][level])) == Some(g.Rows()[i][level]) && g.Rows()[i][level] != Null
  }

  lemma {:induction false} FilledBody(g: Grid, i: nat, level: nat)
    requires LabelsPresent(g) && i < |g.Rows()| && level < |g.rowKeys|
    ensures forall k | 0 <= k < |g.Rows()| :: level < |BodyList(g, |g.Rows()|)[k].labels|
    ensures FillDown(BodyList(g, |g.Rows()|), i, level) == Some(g.Rows()[i][level])
    decreases i
  {
    hide Combos, Cells;
    var rows := BodyList(g, |g.Rows()|);
    assert rows[i].labels[level] == g.BodyLabel(i, level);
    if g.Continues(i, level + 1) {
      FilledBody(g, i - 1, level);
      assert g.Rows()[i - 1][..level + 1][level] == g.Rows()[i][..level + 1][level];
    }
  }

  /** Filling blanks down over the body rows recovers every row combination. */
  lemma LabelsReadBack(g: Grid, i: nat, level: nat)
    requires LabelsPresent(g) && i < |g.Rows()| && level < |g.rowKeys|
    ensures |BodiesOf(g.Sheet())| == |g.Rows()|
    ensures forall k | 0 <= k < |BodiesOf(g.Sheet())| :: level < |BodiesOf(g.Sheet())[k].labels|
    ensures FillDown(BodiesOf(g.Sheet()), i, level) == Some(g.Rows()[i][level])
  {
    BodiesOfSheet(g);
    FilledBody(g, i, level);
  }
}
