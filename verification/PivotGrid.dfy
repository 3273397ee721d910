/** The pivot sheet of a grouped report, described without any running totals: which rows it has
    and which numbers each of its cells aggregates (`export_pivot_to_excel`,
    data_export/views.py:547-792).  Cells are logical values; styling is left aside. */
module PivotGrid {
  import opened Prelude

  /** A value of a record.  A text carries what `float` makes of it, if anything. */
  datatype Cell = Null | Num(x: real) | Text(s: string, number: Option<real>)

  type Record = map<string, Cell>

  /** The values of the grouping keys of one record. */
  type Combo = seq<Cell>

  datatype Agg = SumAgg | MinAgg | MaxAgg | CountAgg | AvgAgg

  datatype ValueField = ValueField(name: string, alias: string, aggregate: Agg)

  function Get(r: Record, key: string): Cell {
    if key in r then r[key] else Null
  }

  /** `_coerce_number` */
  function Coerce(c: Cell): Option<real> {
    match c
    case Null => None
    case Num(x) => Some(x)
    case Text(s, number) => if s == "" then None else number
  }

  function ComboOf(r: Record, keys: seq<string>): (c: Combo)
    ensures |c| == |keys|
    ensures forall i | 0 <= i < |keys| :: c[i] == if keys[i] in r then r[keys[i]] else Null
  {
    seq(|keys|, i requires 0 <= i < |keys| => Get(r, keys[i]))
  }

  /** Distinct key combinations in order of first appearance; one empty one without keys. */
  function Combos(records: seq<Record>, keys: seq<string>): (out: seq<Combo>)
    ensures forall i | 0 <= i < |out| :: |out[i]| == |keys|
    ensures forall i, j :: 0 <= i < j < |out| ==> out[i] != out[j]
  {
    if keys == [] then [[]]
    else DistinctCombos(records, keys)
  }

  function DistinctCombos(records: seq<Record>, keys: seq<string>): (out: seq<Combo>)
    ensures forall i | 0 <= i < |out| :: |out[i]| == |keys|
    ensures forall i, j :: 0 <= i < j < |out| ==> out[i] != out[j]
    ensures forall c :: c in out <==> exists r :: r in records && ComboOf(r, keys) == c
  {
    if records == [] then []
    else
      var last := records[|records| - 1];
      var seen := DistinctCombos(records[..|records| - 1], keys);
      assert forall r :: r in records <==> r in records[..|records| - 1] || r == last;
      if ComboOf(last, keys) in seen then seen else seen + [ComboOf(last, keys)]
  }

  /** Records of one row and one column combination, in order. */
  function Matching(records: seq<Record>, rowKeys: seq<string>, colKeys: seq<string>, row: Combo,
          col: Combo): seq<Record> {
    if records == [] then []
    else
      var last := records[|records| - 1];
      Matching(records[..|records| - 1], rowKeys, colKeys, row, col)
        + if ComboOf(last, rowKeys) == row && ComboOf(last, colKeys) == col then [last] else []
  }

  /** The value of a cell: the first record's alias, else its plain name. */
  function FirstValue(recs: seq<Record>, vf: ValueField): Cell {
    if recs == [] then Null
    else if Get(recs[0], vf.alias) != Null then Get(recs[0], vf.alias)
    else Get(recs[0], vf.name)
  }

  /** A number if there is one, else the value itself, else an empty text. */
  function Shown(value: Cell): Cell {
    match Coerce(value)
    case Some(x) => Num(x)
    case None => if value != Null then value else Text("", None)
  }

  // ----- the sheet ------------------------------------------------------------------------

  datatype Label = Blank | Shows(value: Cell) | SubtotalOf(value: Cell) | GrandTotal | Heading(field: string)

  /** A value cell: shown as it is, or the aggregate of a list of numbers. */
  datatype Entry = Plain(value: Cell) | Title(text: string) | Aggregated(numbers: seq<real>, aggregate: Agg)

  datatype Kind = HeaderRow | BodyRow | SubtotalRow(level: nat) | GrandRow

  datatype Row = Row(kind: Kind, labels: seq<Label>, entries: seq<Entry>)

  function Width(r: Row): nat { |r.labels| + |r.entries| }

  const EXCEL_MAX_COLS: nat := 16384
  const SAFETY_MARGIN: nat := 4

  function MaxInt(a: int, b: int): int { if a >= b then a else b }

  /** How many column combinations are shown. */
  function Available(rowLevels: nat, valueFields: nat): (n: nat)
    ensures n >= 1
  {
    MaxInt(1, (EXCEL_MAX_COLS - rowLevels - SAFETY_MARGIN) / MaxInt(1, valueFields))
  }

  function Truncate<T>(s: seq<T>, n: nat): seq<T> { if |s| > n then s[..n] else s }

  /** One entry per column combination and value field, the fields running fastest. */
  function Cells(ci: nat, j: nat, fields: nat, f: (nat, nat) -> Entry): (out: seq<Entry>)
    requires j <= fields
    ensures |out| == ci * fields + j
    decreases ci, j
  {
    if j > 0 then Cells(ci, j - 1, fields, f) + [f(ci, j - 1)]
    else if ci > 0 then Cells(ci - 1, fields, fields, f)
    else []
  }

  lemma {:induction false} MulMonotone(a: nat, b: nat, n: nat)
    requires a < b
    ensures a * n + n <= b * n
    decreases b
  {
    if a + 1 < b {
      MulMonotone(a, b - 1, n);
    }
  }

  /** Entry `k` of combination `c` stands at column `c * fields + k`. */
  lemma {:induction false} CellAt(ci: nat, j: nat, fields: nat, f: (nat, nat) -> Entry, c: nat, k: nat)
    requires j <= fields && k < fields && (c < ci || (c == ci && k < j))
    ensures 0 <= c * fields + k < ci * fields + j
    ensures Cells(ci, j, fields, f)[c * fields + k] == f(c, k)
    decreases ci, j
  {
    if c < ci {
      MulMonotone(c, ci, fields);
    }
    if j > 0 {
      if !(c == ci && k == j - 1) {
        CellAt(ci, j - 1, fields, f, c, k);
      }
    } else {
      CellAt(ci - 1, fields, fields, f, c, k);
    }
  }

  /** Everything the sheet depends on. */
  datatype Grid = Grid(
    records: seq<Record>, rowKeys: seq<string>, colKeys: seq<string>, values: seq<ValueField>,
    showSubtotals: bool, showGrandTotal: bool)
  {
    function Rows(): (out: seq<Combo>)
      ensures forall i | 0 <= i < |out| :: |out[i]| == |rowKeys|
      ensures forall i, j :: 0 <= i < j < |out| ==> out[i] != out[j]
    {
      Combos(records, rowKeys)
    }

    function Cols(): (out: seq<Combo>)
      ensures forall i | 0 <= i < |out| :: |out[i]| == |colKeys|
      ensures forall i, j :: 0 <= i < j < |out| ==> out[i] != out[j]
      ensures |out| <= Available(|rowKeys|, |values|)
    {
      Truncate(Combos(records, colKeys), Available(|rowKeys|, |values|))
    }

    /** Subtotal levels exist below the last grouping level. */
    predicate HasSubtotals() { showSubtotals && |rowKeys| > 1 }

    function CellOf(row: Combo, col: Combo, vf: ValueField): Cell {
      FirstValue(Matching(records, rowKeys, colKeys, row, col), vf)
    }

    // ----- numbers, by row, column combination and alias ----------------------------------

    /** What the first `j` value fields of a row put under an alias. */
    function Puts(row: Combo, col: Combo, alias: string, j: nat): seq<real>
      requires j <= |values|
    {
      if j == 0 then []
      else
        var vf := values[j - 1];
        var before := Puts(row, col, alias, j - 1);
        if vf.alias == alias && Coerce(CellOf(row, col, vf)).Some?
        then before + [Coerce(CellOf(row, col, vf)).value] else before
    }

    /** What row `i` puts under an alias. */
    function RowPuts(i: nat, col: Combo, alias: string): seq<real>
      requires i < |Rows()|
    {
      Puts(Rows()[i], col, alias, |values|)
    }

    /** All that the first `i` rows put under an alias. */
    function AllPuts(i: nat, col: Combo, alias: string): seq<real>
      requires i <= |Rows()|
    {
      if i == 0 then [] else AllPuts(i - 1, col, alias) + RowPuts(i - 1, col, alias)
    }

    /** Row `i` continues the run of equal prefixes of length `level` of the row before it. */
    predicate Continues(i: nat, level: nat)
      requires i < |Rows()| && level <= |rowKeys|
    {
      i > 0 && Rows()[i - 1][..level] == Rows()[i][..level]
    }

    /** Row `i` closes its run. */
    predicate Closes(i: nat, level: nat)
      requires i < |Rows()| && level <= |rowKeys|
    {
      i + 1 == |Rows()| || !Continues(i + 1, level)
    }

    /** What the run of equal prefixes that contains row `i` puts under an alias, up to row `i`. */
    function RunPuts(level: nat, i: nat, col: Combo, alias: string): seq<real>
      requires i < |Rows()| && level <= |rowKeys|
    {
      (if Continues(i, level) then RunPuts(level, i - 1, col, alias) else []) + RowPuts(i, col, alias)
    }

    /** No earlier value field carries the alias of field `j`. */
    predicate FirstOfAlias(j: nat)
      requires j < |values|
    {
      forall k | 0 <= k < j :: values[k].alias != values[j].alias
    }

    // ----- rows of the sheet --------------------------------------------------------------

    function BodyEntry(i: nat, ci: nat, j: nat): Entry {
      if i < |Rows()| && ci < |Cols()| && j < |values|
      then Plain(Shown(CellOf(Rows()[i], Cols()[ci], values[j]))) else Plain(Null)
    }

    function BodyEntries(i: nat): (nat, nat) -> Entry { (ci: nat, j: nat) => BodyEntry(i, ci, j) }

    /** A label is written where the prefix up to it changes. */
    function BodyLabel(i: nat, level: nat): Label
      requires i < |Rows()| && level < |rowKeys|
    {
      if Continues(i, level + 1) then Blank
      else if Rows()[i][level] == Null then Blank
      else Shows(Rows()[i][level])
    }

    function BodyRowAt(i: nat): Row
      requires i < |Rows()|
    {
      Row(BodyRow, seq(|rowKeys|, l requires 0 <= l < |rowKeys| => BodyLabel(i, l)),
          Cells(|Cols()|, 0, |values|, BodyEntries(i)))
    }

    /** The column, among the value cells, of one combination and field. */
    function Column(ci: nat, j: nat): nat { ci * |values| + j }

    /** Under a repeated alias only the first field's column receives the numbers. */
    function SubtotalEntry(level: nat, i: nat, ci: nat, j: nat): Entry {
      if i < |Rows()| && level <= |rowKeys| && ci < |Cols()| && j < |values|
      then Aggregated(SubtotalNumbers(level, i, ci, j), values[j].aggregate) else Plain(Null)
    }

    function SubtotalNumbers(level: nat, i: nat, ci: nat, j: nat): seq<real>
      requires i < |Rows()| && level <= |rowKeys| && ci < |Cols()| && j < |values|
    {
      if FirstOfAlias(j) then RunPuts(level, i, Cols()[ci], values[j].alias) else []
    }

    function SubtotalEntries(level: nat, i: nat): (nat, nat) -> Entry {
      (ci: nat, j: nat) => SubtotalEntry(level, i, ci, j)
    }

    function SubtotalLabels(level: nat, i: nat): (labels: seq<Label>)
      requires 1 <= level < |rowKeys| && i < |Rows()|
      ensures |labels| == |rowKeys|
    {
      seq(|rowKeys|, l => if l == level then SubtotalOf(Rows()[i][level - 1]) else Blank)
    }

    function SubtotalRowAt(level: nat, i: nat): Row
      requires 1 <= level < |rowKeys| && i < |Rows()|
    {
      Row(SubtotalRow(level), SubtotalLabels(level, i),
          Cells(|Cols()|, 0, |values|, SubtotalEntries(level, i)))
    }

    /** The subtotal rows after row `i`, from `level` outwards. */
    function SubtotalRows(level: nat, i: nat): seq<Row>
      requires level < |rowKeys| && i < |Rows()|
    {
      if level == 0 then []
      else (if Closes(i, level) then [SubtotalRowAt(level, i)] else []) + SubtotalRows(level - 1, i)
    }

    /** A body row and the subtotal rows it closes. */
    function RowBlock(i: nat): seq<Row>
      requires i < |Rows()|
    {
      [BodyRowAt(i)] + if HasSubtotals() then SubtotalRows(|rowKeys| - 1, i) else []
    }

    /** The rows written for the first `i` row combinations. */
    function BodyRows(i: nat): seq<Row>
      requires i <= |Rows()|
    {
      if i == 0 then [] else BodyRows(i - 1) + RowBlock(i - 1)
    }

    function GrandEntry(ci: nat, j: nat): Entry {
      if ci < |Cols()| && j < |values|
      then Aggregated(AllPuts(|Rows()|, Cols()[ci], values[j].alias), values[j].aggregate) else Plain(Null)
    }

    function GrandEntries(): (nat, nat) -> Entry { (ci: nat, j: nat) => GrandEntry(ci, j) }

    function GrandLabels(): (labels: seq<Label>)
      ensures |labels| == |rowKeys|
    {
      seq(|rowKeys|, l => if l == 0 then GrandTotal else Blank)
    }

    function GrandRows(): seq<Row> {
      if showGrandTotal && (Rows() != [] || Cols() != [])
      then [Row(GrandRow, GrandLabels(), Cells(|Cols()|, 0, |values|, GrandEntries()))] else []
    }

    function LevelEntry(level: nat, ci: nat): Entry {
      if ci < |Cols()| && level < |Cols()[ci]| && Cols()[ci][level] != Null then Plain(Cols()[ci][level])
      else Plain(Text("", None))
    }

    function LevelLabels(level: nat): (labels: seq<Label>)
      requires level < |colKeys|
      ensures |labels| == |rowKeys|
    {
      seq(|rowKeys|, l => if l == 0 then Heading(colKeys[level]) else Blank)
    }

    function LevelEntries(level: nat): (nat, nat) -> Entry { (ci: nat, j: nat) => LevelEntry(level, ci) }

    /** One header row per grouping level of the columns, then the field titles. */
    function HeaderRows(level: nat): seq<Row>
      requires level <= |colKeys|
    {
      if level == 0 then []
      else HeaderRows(level - 1) + [Row(HeaderRow,
        LevelLabels(level - 1),
        Cells(|Cols()|, 0, |values|, LevelEntries(level - 1)))]
    }

    function TitleEntry(j: nat): Entry {
      Title(if j < |values| then values[j].name else "")
    }

    function TitleEntries(): (nat, nat) -> Entry { (ci: nat, j: nat) => TitleEntry(j) }

    function TitleRow(): Row {
      Row(HeaderRow, seq(|rowKeys|, l requires 0 <= l < |rowKeys| => Heading(rowKeys[l])),
          Cells(|Cols()|, 0, |values|, TitleEntries()))
    }

    function Sheet(): seq<Row> {
      HeaderRows(|colKeys|) + [TitleRow()] + BodyRows(|Rows()|) + GrandRows()
    }
  }
}
