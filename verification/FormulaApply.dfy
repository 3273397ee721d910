/** Filling in the requested computed fields of a fetched record
    (`apply_computed_fields_to_records`, api/BL/computed_fields.py:1803-2080): rollups first, then
    the fixpoint, then one more evaluation of every requested field, in the order of the request. */
module FormulaApply {
  import opened Prelude
  import opened FormulaTable
  import opened FormulaFixpoint

  /** An entry of the dictionary of requested computed fields: output key and field. */
  datatype Output = Output(key: Name, field: Name)

  predicate Computable(table: Table, outputs: seq<Output>) {
    forall o | o in outputs :: table.Find(o.field).Some?
  }

  function MetaOf(table: Table, x: Name): Meta
    requires table.Find(x).Some?
  {
    table.entries[table.Find(x).value].meta
  }

  // ----- the three phases -----------------------------------------------------------------

  /** The first `j` requested rollups, from one batch per rollup, each under its output key. */
  function PrefillRequested(table: Table, outputs: seq<Output>, j: nat, record: Record): Record
    requires Computable(table, outputs) && j <= |outputs|
  {
    if j == 0 then record
    else
      var before := PrefillRequested(table, outputs, j - 1, record);
      var o := outputs[j - 1];
      if IsRollup(table, o.field) then Visit(table, Entry(o.key, MetaOf(table, o.field)), before) else before
  }

  predicate RollupKey(table: Table, outputs: seq<Output>, x: Name) {
    exists o :: o in outputs && o.key == x && IsRollup(table, o.field)
  }

  /** The rollups among the first `i` entries of the table, unless a requested rollup has that key. */
  function PrefillTable(table: Table, outputs: seq<Output>, i: nat, record: Record): Record
    requires i <= |table.entries|
  {
    if i == 0 then record
    else
      var before := PrefillTable(table, outputs, i - 1, record);
      var e := table.entries[i - 1];
      if e.meta.Rollup? && !RollupKey(table, outputs, e.name) then Visit(table, e, before) else before
  }

  function Prefilled(table: Table, outputs: seq<Output>, record: Record): Record
    requires Computable(table, outputs)
  {
    PrefillTable(table, outputs, |table.entries|, PrefillRequested(table, outputs, |outputs|, record))
  }

  /** The last evaluation of a requested field: a formula overwrites what its key held, a rollup
      does not. */
  function Write(table: Table, o: Output, record: Record): Record
    requires table.Find(o.field).Some?
  {
    var m := MetaOf(table, o.field);
    if m.Rollup? then Visit(table, Entry(o.key, m), record)
    else
      match table.Evaluate(m, record)
      case None => record - {o.key}
      case Some(v) => record[o.key := v]
  }

  function Written(table: Table, outputs: seq<Output>, j: nat, record: Record): Record
    requires Computable(table, outputs) && j <= |outputs|
  {
    if j == 0 then record else Write(table, outputs[j - 1], Written(table, outputs, j - 1, record))
  }

  /** The record after the fixpoint. */
  function Settled(table: Table, outputs: seq<Output>, record: Record): Record
    requires Computable(table, outputs)
  {
    Rounds(table, Prefilled(table, outputs, record), ROUNDS)
  }

  function Applied(table: Table, outputs: seq<Output>, record: Record): Record
    requires Computable(table, outputs)
  {
    Written(table, outputs, |outputs|, Settled(table, outputs, record))
  }

  method ApplyComputedFields(table: Table, outputs: seq<Output>, row: Row)
    requires Computable(table, outputs)
    modifies row
    ensures row.fields == Applied(table, outputs, old(row.fields))
  {
    hide Table.Evaluate, Rounds;
    for j := 0 to |outputs|
      invariant row.fields == PrefillRequested(table, outputs, j, old(row.fields))
    {
      var o := outputs[j];
      if IsRollup(table, o.field) {
        Supply(table, o.key, MetaOf(table, o.field), row);
      }
    }
    for i := 0 to |table.entries|
      invariant row.fields ==
        PrefillTable(table, outputs, i, PrefillRequested(table, outputs, |outputs|, old(row.fields)))
    {
      var e := table.entries[i];
      if e.meta.Rollup? && !RollupKey(table, outputs, e.name) {
        Supply(table, e.name, e.meta, row);
      }
    }
    ResolveFormulaDeps(table, row);
    for j := 0 to |outputs|
      invariant row.fields == Written(table, outputs, j, Settled(table, outputs, old(row.fields)))
    {
      var o := outputs[j];
      var m := MetaOf(table, o.field);
      if m.Rollup? {
        Supply(table, o.key, m, row);
      } else {
        var value := table.Evaluate(m, row.fields);
        if value.Some? {
          row.fields := row.fields[o.key := value.value];
        } else {
          row.fields := row.fields - {o.key};
        }
      }
    }
  }

  /** Fills in one rollup where the record has no value yet. */
  method Supply(table: Table, key: Name, m: Meta, row: Row)
    modifies row
    ensures row.fields == Visit(table, Entry(key, m), old(row.fields))
  {
    if key !in row.fields {
      var value := table.Evaluate(m, row.fields);
      if value.Some? {
        row.fields := row.fields[key := value.value];
      }
    }
  }

  // ----- what the output keys must not clash with -----------------------------------------

  ghost predicate DistinctKeys(outputs: seq<Output>) {
    forall i, j :: 0 <= i < j < |outputs| ==> outputs[i].key != outputs[j].key
  }

  /** With a computed field the zone contains all that the field reads. */
  ghost predicate ReadsWithin(table: Table, zone: iset<Name>) {
    forall x, r | x in zone && table.Find(x).Some? && r in table.Needs(x) :: r in zone
  }

  /** Of the outputs written before position `j`, and of the rollups, which are filled in first, none
      takes the name of something in the zone as its alias. */
  ghost predicate Clear(table: Table, outputs: seq<Output>, j: nat, zone: iset<Name>) {
    && Computable(table, outputs) && DistinctKeys(outputs) && ReadsWithin(table, zone)
    && forall i | 0 <= i < |outputs| && (i < j || IsRollup(table, outputs[i].field)) && outputs[i].key in zone ::
         outputs[i].key == outputs[i].field
  }

  /** The record holds no formula's value of the zone beforehand, and the identifier is no computed field. */
  ghost predicate Unfilled(table: Table, zone: iset<Name>, record: Record) {
    table.Find("id").None? && forall x | x in record && x in zone :: !IsFormula(table, x)
  }

  // ----- prefilling changes no value ------------------------------------------------------

  /** In the zone only rollups have been filled in, each with its own value. */
  ghost predicate RollupsOnly(table: Table, zone: iset<Name>, record: Record, now: Record) {
    forall x | x in zone :: Get(now, x) == Get(record, x)
      || (x !in record && IsRollup(table, x) && Get(now, x) == table.Evaluate(MetaOf(table, x), record))
  }

  lemma SupplyKeeps(table: Table, zone: iset<Name>, record: Record, now: Record, key: Name, f: Name)
    requires ReadsWithin(table, zone) && table.Find("id").None? && RollupsOnly(table, zone, record, now)
    requires IsRollup(table, f) && (key in zone ==> key == f)
    ensures RollupsOnly(table, zone, record, Visit(table, Entry(key, MetaOf(table, f)), now))
  {
    hide Table.FindFrom, ReadsWithin;
    if key in zone {
      var m := MetaOf(table, f);
      assert table.Reads(m) == ["id"] && "id" in table.Needs(f);
      ReadInZone(table, zone, f, "id");
      assert Get(now, "id") == Get(record, "id");
      assert table.Evaluate(m, now) == table.Evaluate(m, record) by {
        if "id" in record {
          assert table.Values(["id"], now) == table.Values(["id"], record);
        }
      }
    }
  }

  lemma ReadInZone(table: Table, zone: iset<Name>, x: Name, r: Name)
    requires ReadsWithin(table, zone) && x in zone && table.Find(x).Some? && r in table.Needs(x)
    ensures r in zone
  {
  }

  lemma {:induction false} RequestedKeep(table: Table, outputs: seq<Output>, j: nat, zone: iset<Name>, record: Record,
          n: nat)
    requires Clear(table, outputs, j, zone) && table.Find("id").None? && n <= |outputs|
    ensures RollupsOnly(table, zone, record, PrefillRequested(table, outputs, n, record))
  {
    hide RollupsOnly, Visit, ReadsWithin;
    if n == 0 {
      NothingFilled(table, zone, record);
    } else {
      RequestedKeep(table, outputs, j, zone, record, n - 1);
      var o := outputs[n - 1];
      if IsRollup(table, o.field) {
        SupplyKeeps(table, zone, record, PrefillRequested(table, outputs, n - 1, record), o.key, o.field);
      }
    }
  }

  lemma NothingFilled(table: Table, zone: iset<Name>, record: Record)
    ensures RollupsOnly(table, zone, record, record)
  {
  }

  lemma {:induction false} TableKeeps(table: Table, outputs: seq<Output>, zone: iset<Name>, record: Record,
          now: Record, i: nat)
    requires ReadsWithin(table, zone) && table.Distinct() && table.Find("id").None? && i <= |table.entries|
    requires RollupsOnly(table, zone, record, now)
    ensures RollupsOnly(table, zone, record, PrefillTable(table, outputs, i, now))
  {
    hide RollupsOnly, Visit, ReadsWithin, RollupKey, Table.FindFrom;
    if i > 0 {
      TableKeeps(table, outputs, zone, record, now, i - 1);
      var e := table.entries[i - 1];
      table.FindsItself(i - 1);
      if e.meta.Rollup? && !RollupKey(table, outputs, e.name) {
        assert e == Entry(e.name, MetaOf(table, e.name));
        SupplyKeeps(table, zone, record, PrefillTable(table, outputs, i - 1, now), e.name, e.name);
      }
    }
  }

  lemma PrefillKeeps(table: Table, outputs: seq<Output>, j: nat, zone: iset<Name>, record: Record)
    requires Clear(table, outputs, j, zone) && table.Distinct() && table.Find("id").None?
    ensures RollupsOnly(table, zone, record, Prefilled(table, outputs, record))
  {
    hide RollupsOnly, ReadsWithin, PrefillTable, PrefillRequested;
    RequestedKeep(table, outputs, j, zone, record, |outputs|);
    TableKeeps(table, outputs, zone, record, PrefillRequested(table, outputs, |outputs|, record), |table.entries|);
  }

  /** Values are the same whether some rollups are stored already or still to be computed. */
  lemma {:induction false} SameValue(table: Table, rank: map<Name, nat>, zone: iset<Name>, record: Record,
          base: Record, x: Name)
    requires Ranked(table, rank) && ReadsWithin(table, zone) && table.Find("id").None?
    requires RollupsOnly(table, zone, record, base) && Known(table, rank, x) && x in zone
    ensures Value(table, rank, base, x) == Value(table, rank, record, x)
    decreases RankOf(table, rank, x)
  {
    hide Table.FindFrom, Table.Apply, ReadsWithin;
    assert Get(base, x) == Get(record, x)
      || (x !in record && IsRollup(table, x) && Get(base, x) == table.Evaluate(MetaOf(table, x), record));
    if x !in record && table.Find(x).Some? {
      if x in base {
        var needs := table.Needs(x);
        assert needs == ["id"];
        EvaluateIsValue(table, rank, record, record, x, {"id"});
      } else {
        forall r | r in table.Needs(x) ensures Value(table, rank, base, r) == Value(table, rank, record, r) {
          ReadInZone(table, zone, x, r);
          SameValue(table, rank, zone, record, base, r);
        }
        SameReadsSameValue(table, rank, base, record, x);
      }
    }
  }

  /** A field stored in neither record has the same value in both if all its reads have. */
  lemma SameReadsSameValue(table: Table, rank: map<Name, nat>, base: Record, record: Record, x: Name)
    requires Ranked(table, rank) && x !in base && x !in record && table.Find(x).Some? && x in rank
    requires forall r | r in table.Needs(x) :: Value(table, rank, base, r) == Value(table, rank, record, r)
    ensures Value(table, rank, base, x) == Value(table, rank, record, x)
  {
    hide Table.FindFrom, Table.Apply, Table.Reads;
    var needs := table.Needs(x);
    if forall r | r in needs :: Value(table, rank, base, r).Some? {
      assert seq(|needs|, i requires 0 <= i < |needs| => Value(table, rank, base, needs[i]).value)
        == seq(|needs|, i requires 0 <= i < |needs| => Value(table, rank, record, needs[i]).value);
    }
  }

  // ----- what is at hand when a requested field is written ----------------------------------

  /** Field `x` is in the record when the output at position `j` is evaluated: the fixpoint left
      it there, or an earlier output was this field, under its own name, with its reads at hand. */
  ghost predicate AtHand(table: Table, rank: map<Name, nat>, base: Record, outputs: seq<Output>, j: nat, x: Name)
    requires Ranked(table, rank) && j <= |outputs|
    decreases j, 0
  {
    WithinRounds(table, rank, base, x, ROUNDS)
    || exists i :: 0 <= i < j && outputs[i] == Output(x, x) && AllAtHand(table, rank, base, outputs, i, x)
  }

  /** All reads of `x` are at hand at position `j`. */
  ghost predicate AllAtHand(table: Table, rank: map<Name, nat>, base: Record, outputs: seq<Output>, j: nat, x: Name)
    requires Ranked(table, rank) && j <= |outputs|
    decreases j, 1
  {
    forall r | r in table.Needs(x) :: AtHand(table, rank, base, outputs, j, r)
  }

  lemma AtHandGrows(table: Table, rank: map<Name, nat>, base: Record, outputs: seq<Output>, i: nat, j: nat, x: Name)
    requires Ranked(table, rank) && i <= j <= |outputs|
    ensures AtHand(table, rank, base, outputs, i, x) ==> AtHand(table, rank, base, outputs, j, x)
    ensures AllAtHand(table, rank, base, outputs, i, x) ==> AllAtHand(table, rank, base, outputs, j, x)
  {
    hide WithinRounds, Ranked, Table.Needs;
    forall r ensures AtHand(table, rank, base, outputs, i, r) ==> AtHand(table, rank, base, outputs, j, r) {
      if AtHand(table, rank, base, outputs, i, r) && !WithinRounds(table, rank, base, r, ROUNDS) {
        var k :| 0 <= k < i && outputs[k] == Output(r, r) && AllAtHand(table, rank, base, outputs, k, r);
        assert 0 <= k < j;
      }
    }
  }

  /** Before the output at `j` is written, the record holds the known fields of the zone at hand. */
  ghost predicate HoldsAtHand(table: Table, rank: map<Name, nat>, base: Record, outputs: seq<Output>, j: nat,
          zone: iset<Name>, now: Record)
    requires Ranked(table, rank) && j <= |outputs|
  {
    forall x | Known(table, rank, x) && x in zone ::
      Get(now, x) == if AtHand(table, rank, base, outputs, j, x) then Value(table, rank, base, x) else None
  }

  /** The last evaluation of a formula at position `j`. */
  lemma EvaluateAtHand(table: Table, rank: map<Name, nat>, base: Record, outputs: seq<Output>, j: nat,
          zone: iset<Name>, now: Record, f: Name)
    requires Ranked(table, rank) && ReadsWithin(table, zone) && j <= |outputs|
    requires HoldsAtHand(table, rank, base, outputs, j, zone, now)
    requires table.Find(f).Some? && f in rank && f in zone && f !in base
    ensures table.Evaluate(MetaOf(table, f), now)
      == if AllAtHand(table, rank, base, outputs, j, f) then Value(table, rank, base, f) else None
  {
    hide AtHand, Value, Table.Evaluate, Table.Reads, ReadsWithin;
    var atHand := set r | r in table.Needs(f) && AtHand(table, rank, base, outputs, j, r);
    forall r | r in table.Needs(f)
      ensures Get(now, r) == if r in atHand then Value(table, rank, base, r) else None
    {
      ReadInZone(table, zone, f, r);
      assert Known(table, rank, r);
    }
    EvaluateIsValue(table, rank, base, now, f, atHand);
  }

  /** An output under its own name is at hand from then on just if its reads were. */
  lemma OwnNameAtHand(table: Table, rank: map<Name, nat>, base: Record, outputs: seq<Output>, j: nat, x: Name)
    requires Ranked(table, rank) && j < |outputs| && x !in base && table.Find(x).Some?
    requires outputs[j] == Output(x, x)
    ensures AtHand(table, rank, base, outputs, j + 1, x) <==> AllAtHand(table, rank, base, outputs, j, x)
  {
    hide Ranked, Table.Needs;
    if WithinRounds(table, rank, base, x, ROUNDS) {
      forall r | r in table.Needs(x) ensures WithinRounds(table, rank, base, r, ROUNDS) {
        MoreRoundsReachMore(table, rank, base, r, Budget(table, r, x, ROUNDS), ROUNDS);
      }
    } else if AtHand(table, rank, base, outputs, j + 1, x) {
      var i :| 0 <= i < j + 1 && outputs[i] == Output(x, x) && AllAtHand(table, rank, base, outputs, i, x);
      AtHandGrows(table, rank, base, outputs, i, j, x);
    }
  }

  /** A rollup needs nothing but the identifier. */
  lemma RollupAtHand(table: Table, rank: map<Name, nat>, base: Record, outputs: seq<Output>, j: nat, x: Name)
    requires Ranked(table, rank) && j <= |outputs| && IsRollup(table, x) && x in rank && table.Find("id").None?
    ensures AtHand(table, rank, base, outputs, j, x) && AllAtHand(table, rank, base, outputs, j, x)
  {
    assert table.Needs(x) == ["id"];
    assert WithinRounds(table, rank, base, "id", ROUNDS);
  }

  lemma WriteOwn(table: Table, rank: map<Name, nat>, base: Record, outputs: seq<Output>, j: nat, zone: iset<Name>,
          now: Record)
    requires Ranked(table, rank) && ReadsWithin(table, zone) && j < |outputs| && Unfilled(table, zone, base)
    requires HoldsAtHand(table, rank, base, outputs, j, zone, now) && outputs[j].key == outputs[j].field
    requires outputs[j].field in rank && outputs[j].field in zone && table.Find(outputs[j].field).Some?
    ensures Get(Write(table, outputs[j], now), outputs[j].field) ==
      if AtHand(table, rank, base, outputs, j + 1, outputs[j].field)
      then Value(table, rank, base, outputs[j].field) else None
  {
    hide AtHand, AllAtHand, Value, Table.Evaluate, Table.Reads, Table.FindFrom, ReadsWithin, Ranked;
    var x := outputs[j].field;
    assert Get(now, x) == if AtHand(table, rank, base, outputs, j, x) then Value(table, rank, base, x) else None;
    if IsRollup(table, x) {
      RollupAtHand(table, rank, base, outputs, j, x);
      RollupAtHand(table, rank, base, outputs, j + 1, x);
      if x in base {
        StoredIsValue(table, rank, base, x);
      } else {
        EvaluateAtHand(table, rank, base, outputs, j, zone, now, x);
      }
    } else {
      EvaluateAtHand(table, rank, base, outputs, j, zone, now, x);
      OwnNameAtHand(table, rank, base, outputs, j, x);
    }
  }

  lemma NotWritten(table: Table, rank: map<Name, nat>, base: Record, outputs: seq<Output>, j: nat, x: Name)
    requires Ranked(table, rank) && j < |outputs| && outputs[j] != Output(x, x)
    ensures AtHand(table, rank, base, outputs, j + 1, x) <==> AtHand(table, rank, base, outputs, j, x)
  {
    hide WithinRounds, Ranked, AllAtHand;
    AtHandGrows(table, rank, base, outputs, j, j + 1, x);
  }

  lemma WriteHolds(table: Table, rank: map<Name, nat>, base: Record, outputs: seq<Output>, j: nat, i: nat,
          zone: iset<Name>, now: Record)
    requires Ranked(table, rank) && Clear(table, outputs, j, zone) && i < j <= |outputs| && Unfilled(table, zone, base)
    requires HoldsAtHand(table, rank, base, outputs, i, zone, now)
    ensures HoldsAtHand(table, rank, base, outputs, i + 1, zone, Write(table, outputs[i], now))
  {
    hide AtHand, AllAtHand, Value, Table.Evaluate, Table.Reads, Table.FindFrom, ReadsWithin, Ranked;
    var o, after := outputs[i], Write(table, outputs[i], now);
    forall x | Known(table, rank, x) && x in zone
      ensures Get(after, x) ==
        if AtHand(table, rank, base, outputs, i + 1, x) then Value(table, rank, base, x) else None
    {
      assert Get(now, x) == if AtHand(table, rank, base, outputs, i, x) then Value(table, rank, base, x) else None;
      if x == o.key {
        assert o == Output(x, x);
        WriteOwn(table, rank, base, outputs, i, zone, now);
      } else {
        NotWritten(table, rank, base, outputs, i, x);
      }
    }
  }

  lemma {:induction false} WrittenHolds(table: Table, rank: map<Name, nat>, record: Record, outputs: seq<Output>,
          j: nat, i: nat, zone: iset<Name>)
    requires Ranked(table, rank) && table.Distinct() && Clear(table, outputs, j, zone) && Unfilled(table, zone, record)
    requires i <= j <= |outputs|
    ensures var base := Prefilled(table, outputs, record);
      HoldsAtHand(table, rank, base, outputs, i, zone, Written(table, outputs, i, Settled(table, outputs, record)))
  {
    hide Write, Value, WithinRounds, Ranked, ReadsWithin, Rounds, Prefilled;
    var base := Prefilled(table, outputs, record);
    PrefillUnfilled(table, outputs, j, zone, record);
    if i == 0 {
      forall x | Known(table, rank, x) && x in zone
        ensures Get(Rounds(table, base, ROUNDS), x) ==
          if AtHand(table, rank, base, outputs, 0, x) then Value(table, rank, base, x) else None
      {
        RoundsExactly(table, rank, base, ROUNDS, x);
      }
    } else {
      hide HoldsAtHand;
      WrittenHolds(table, rank, record, outputs, j, i - 1, zone);
      WriteHolds(table, rank, base, outputs, j, i - 1, zone,
                 Written(table, outputs, i - 1, Settled(table, outputs, record)));
    }
  }

  lemma PrefillUnfilled(table: Table, outputs: seq<Output>, j: nat, zone: iset<Name>, record: Record)
    requires Clear(table, outputs, j, zone) && table.Distinct() && Unfilled(table, zone, record)
    ensures Unfilled(table, zone, Prefilled(table, outputs, record))
  {
    hide Prefilled, Table.FindFrom, Table.Evaluate, ReadsWithin;
    var base := Prefilled(table, outputs, record);
    PrefillKeeps(table, outputs, j, zone, record);
    forall x | x in base && x in zone ensures !IsFormula(table, x) {
      assert Get(base, x) == Get(record, x) || IsRollup(table, x);
    }
  }

  /** Later outputs leave an earlier key alone. */
  lemma {:induction false} KeyStays(table: Table, outputs: seq<Output>, record: Record, i: nat, j: nat)
    requires Computable(table, outputs) && DistinctKeys(outputs) && i < j <= |outputs|
    ensures Get(Written(table, outputs, j, record), outputs[i].key)
      == Get(Written(table, outputs, i + 1, record), outputs[i].key)
    decreases j
  {
    hide Write;
    if j > i + 1 {
      KeyStays(table, outputs, record, i, j - 1);
      WriteElsewhere(table, outputs[j - 1], Written(table, outputs, j - 1, record), outputs[i].key);
    }
  }

  lemma WriteElsewhere(table: Table, o: Output, now: Record, x: Name)
    requires table.Find(o.field).Some? && x != o.key
    ensures Get(Write(table, o, now), x) == Get(now, x)
  {
    hide Table.Evaluate;
  }

  // ----- main results --------------------------------------------------------------------

  /** In the end the key of a requested formula holds the formula's value exactly if its reads
      were at hand, and nothing otherwise, unless an alias written before, or a rollup's, is the
      name of something the formula depends on: the zone is any set of names around it. */
  lemma AppliedExactly(table: Table, rank: map<Name, nat>, outputs: seq<Output>, record: Record, j: nat,
          zone: iset<Name>)
    requires Ranked(table, rank) && table.Distinct() && Clear(table, outputs, j, zone) && Unfilled(table, zone, record)
    requires j < |outputs| && IsFormula(table, outputs[j].field)
    requires outputs[j].field in rank && outputs[j].field in zone
    ensures Get(Applied(table, outputs, record), outputs[j].key) ==
      if AllAtHand(table, rank, Prefilled(table, outputs, record), outputs, j, outputs[j].field)
      then Value(table, rank, record, outputs[j].field) else None
  {
    hide Value, AtHand, Ranked, ReadsWithin, Prefilled, Settled, RollupsOnly, HoldsAtHand;
    hide Table.Evaluate, Table.FindFrom;
    var base, settled := Prefilled(table, outputs, record), Settled(table, outputs, record);
    var f := outputs[j].field;
    PrefillUnfilled(table, outputs, j, zone, record);
    WrittenHolds(table, rank, record, outputs, j, j, zone);
    EvaluateAtHand(table, rank, base, outputs, j, zone, Written(table, outputs, j, settled), f);
    KeyStays(table, outputs, settled, j, |outputs|);
    PrefillKeeps(table, outputs, j, zone, record);
    SameValue(table, rank, zone, record, base, f);
  }

  /** Whatever the keys: the last evaluation at position `j` reads under every earlier output's key
      what that output shows in the end, and elsewhere what the fixpoint left. */
  lemma LastEvaluationReads(table: Table, outputs: seq<Output>, record: Record, j: nat, x: Name)
    requires Computable(table, outputs) && DistinctKeys(outputs) && j < |outputs|
    ensures Get(Written(table, outputs, j, Settled(table, outputs, record)), x) ==
      Get(if Keyed(outputs[..j], x) then Applied(table, outputs, record) else Settled(table, outputs, record), x)
    ensures IsFormula(table, outputs[j].field) ==>
      Get(Applied(table, outputs, record), outputs[j].key) ==
        table.Evaluate(MetaOf(table, outputs[j].field), Written(table, outputs, j, Settled(table, outputs, record)))
  {
    hide Settled, Table.Evaluate;
    var settled := Settled(table, outputs, record);
    KeyStays(table, outputs, settled, j, |outputs|);
    if Keyed(outputs[..j], x) {
      var i :| 0 <= i < j && outputs[..j][i].key == x;
      KeyStays(table, outputs, settled, i, j);
      KeyStays(table, outputs, settled, i, |outputs|);
    } else {
      NotKeyed(table, outputs, settled, j, x);
    }
  }

  predicate Keyed(outputs: seq<Output>, c: Name) { exists o :: o in outputs && o.key == c }

  lemma {:induction false} NotKeyed(table: Table, outputs: seq<Output>, record: Record, j: nat, x: Name)
    requires Computable(table, outputs) && j <= |outputs| && !Keyed(outputs[..j], x)
    ensures Get(Written(table, outputs, j, record), x) == Get(record, x)
  {
    hide Write;
    if j > 0 {
      assert outputs[..j][..j - 1] == outputs[..j - 1] && outputs[..j][j - 1] == outputs[j - 1];
      NotKeyed(table, outputs, record, j - 1, x);
      WriteElsewhere(table, outputs[j - 1], Written(table, outputs, j - 1, record), x);
    }
  }

  /** Dependency rank at most six always suffices for a requested formula: five rounds for what
      it reads, and its own last evaluation. */
  lemma SixRanksSuffice(table: Table, rank: map<Name, nat>, outputs: seq<Output>, record: Record, j: nat,
          zone: iset<Name>)
    requires Ranked(table, rank) && table.Distinct() && Clear(table, outputs, j, zone) && Unfilled(table, zone, record)
    requires j < |outputs| && IsFormula(table, outputs[j].field)
    requires outputs[j].field in rank && outputs[j].field in zone
    requires RankOf(table, rank, outputs[j].field) <= ROUNDS + 1
    ensures Get(Applied(table, outputs, record), outputs[j].key) == Value(table, rank, record, outputs[j].field)
  {
    hide Value, WithinRounds, Applied, Prefilled, ReadsWithin, Table.Reads, Table.FindFrom;
    var f, base := outputs[j].field, Prefilled(table, outputs, record);
    forall r | r in table.Needs(f) ensures AtHand(table, rank, base, outputs, j, r) {
      RankSuffices(table, rank, base, r, ROUNDS);
    }
    AppliedExactly(table, rank, outputs, record, j, zone);
  }

  // ----- requested rollups ------------------------------------------------------------------

  /** What a rollup makes of the record's identifier. */
  function OfId(m: Meta, record: Record): Option<int>
    requires m.Rollup?
  {
    if "id" in record then m.aggregate(record["id"]) else None
  }

  /** Filling in changes no other key, and none that holds a value. */
  lemma FilledIn(table: Table, e: Entry, record: Record, x: Name)
    ensures x in record || x != e.name ==> Get(Visit(table, e, record), x) == Get(record, x)
    ensures e.meta.Rollup? && e.name !in record ==> Get(Visit(table, e, record), e.name) == OfId(e.meta, record)
  {
  }

  lemma {:induction false} RequestedFrame(table: Table, outputs: seq<Output>, n: nat, record: Record, x: Name)
    requires Computable(table, outputs) && n <= |outputs| && (x in record || !Keyed(outputs[..n], x))
    ensures Get(PrefillRequested(table, outputs, n, record), x) == Get(record, x)
  {
    hide Visit, IsRollup;
    if n > 0 {
      assert outputs[..n][..n - 1] == outputs[..n - 1] && outputs[..n][n - 1] == outputs[n - 1];
      RequestedFrame(table, outputs, n - 1, record, x);
      var before := PrefillRequested(table, outputs, n - 1, record);
      FilledIn(table, Entry(outputs[n - 1].key, MetaOf(table, outputs[n - 1].field)), before, x);
    }
  }

  /** Each requested rollup is filled in from the record's identifier, under its output key. */
  lemma {:induction false} RequestedFilled(table: Table, outputs: seq<Output>, n: nat, record: Record, j: nat)
    requires Computable(table, outputs) && DistinctKeys(outputs) && j < n <= |outputs| && !Keyed(outputs, "id")
    requires IsRollup(table, outputs[j].field) && outputs[j].key !in record
    ensures Get(PrefillRequested(table, outputs, n, record), outputs[j].key)
      == OfId(MetaOf(table, outputs[j].field), record)
    decreases n
  {
    hide Visit, OfId;
    var o, before := outputs[n - 1], PrefillRequested(table, outputs, n - 1, record);
    FilledIn(table, Entry(o.key, MetaOf(table, o.field)), before, outputs[j].key);
    if j < n - 1 {
      RequestedFilled(table, outputs, n - 1, record, j);
    } else {
      RequestedFrame(table, outputs, j, record, o.key);
      RequestedFrame(table, outputs, j, record, "id");
      SameId(MetaOf(table, o.field), before, record);
    }
  }

  lemma SameId(m: Meta, a: Record, b: Record)
    requires m.Rollup? && Get(a, "id") == Get(b, "id")
    ensures OfId(m, a) == OfId(m, b)
  {
  }

  lemma {:induction false} TableFrame(table: Table, outputs: seq<Output>, i: nat, record: Record, x: Name)
    requires i <= |table.entries|
    requires x in record || RollupKey(table, outputs, x) || table.Find(x).None? || IsFormula(table, x)
    requires table.Distinct()
    ensures Get(PrefillTable(table, outputs, i, record), x) == Get(record, x)
  {
    hide Visit, RollupKey, Table.FindFrom;
    if i > 0 {
      TableFrame(table, outputs, i - 1, record, x);
      table.FindsItself(i - 1);
      FilledIn(table, table.entries[i - 1], PrefillTable(table, outputs, i - 1, record), x);
    }
  }

  lemma {:induction false} TableFilled(table: Table, outputs: seq<Output>, n: nat, record: Record, i: nat)
    requires i < n <= |table.entries| && table.Distinct() && table.Find("id").None?
    requires table.entries[i].meta.Rollup? && table.entries[i].name !in record
    requires !RollupKey(table, outputs, table.entries[i].name)
    ensures Get(PrefillTable(table, outputs, n, record), table.entries[i].name) == OfId(table.entries[i].meta, record)
    decreases n
  {
    hide Visit, OfId, RollupKey, Table.FindFrom;
    var e, before := table.entries[n - 1], PrefillTable(table, outputs, n - 1, record);
    FilledIn(table, e, before, table.entries[i].name);
    if i < n - 1 {
      TableFilled(table, outputs, n - 1, record, i);
    } else {
      NotYetFilled(table, outputs, i, i, record);
      TableFrame(table, outputs, i, record, "id");
      SameId(e.meta, before, record);
    }
  }

  lemma {:induction false} NotYetFilled(table: Table, outputs: seq<Output>, n: nat, i: nat, record: Record)
    requires n <= i < |table.entries| && table.Distinct() && table.entries[i].name !in record
    ensures table.entries[i].name !in PrefillTable(table, outputs, n, record)
  {
    hide Visit, RollupKey;
    if n > 0 {
      NotYetFilled(table, outputs, n - 1, i, record);
      FilledIn(table, table.entries[n - 1], PrefillTable(table, outputs, n - 1, record), table.entries[i].name);
    }
  }

  /** Before the fixpoint every rollup of the table has its value, unless an alias has taken its name. */
  lemma RollupsArePrefilled(table: Table, outputs: seq<Output>, record: Record, i: nat)
    requires Computable(table, outputs) && table.Distinct() && table.Find("id").None? && !Keyed(outputs, "id")
    requires i < |table.entries| && table.entries[i].meta.Rollup? && table.entries[i].name !in record
    requires !Keyed(outputs, table.entries[i].name)
    ensures Get(Prefilled(table, outputs, record), table.entries[i].name) == OfId(table.entries[i].meta, record)
  {
    hide PrefillTable, PrefillRequested, OfId;
    var x, n := table.entries[i].name, |outputs|;
    assert outputs[..n] == outputs;
    RequestedFrame(table, outputs, n, record, x);
    RequestedFrame(table, outputs, n, record, "id");
    var now := PrefillRequested(table, outputs, n, record);
    TableFilled(table, outputs, |table.entries|, now, i);
    SameId(table.entries[i].meta, now, record);
  }

  lemma {:induction false} RoundFrame(table: Table, i: nat, record: Record, x: Name)
    requires i <= |table.entries| && table.Find(x).None?
    ensures Get(RoundFrom(table, i, record), x) == Get(record, x)
    decreases |table.entries| - i
  {
    hide Visit, Table.FindFrom;
    if i < |table.entries| {
      if table.entries[i].name == x {
        table.FindReaches(x, 0, i);
      }
      FilledIn(table, table.entries[i], record, x);
      RoundFrame(table, i + 1, Visit(table, table.entries[i], record), x);
    }
  }

  /** The fixpoint leaves alone what the table does not define. */
  lemma {:induction false} RoundsFrame(table: Table, record: Record, k: nat, x: Name)
    requires table.Find(x).None?
    ensures Get(Rounds(table, record, k), x) == Get(record, x)
    decreases k
  {
    hide RoundFrom;
    if k > 0 {
      RoundFrame(table, 0, record, x);
      RoundsFrame(table, RoundFrom(table, 0, record), k - 1, x);
    }
  }

  lemma PrefilledId(table: Table, outputs: seq<Output>, record: Record)
    requires Computable(table, outputs) && table.Distinct() && table.Find("id").None? && !Keyed(outputs, "id")
    ensures Get(Prefilled(table, outputs, record), "id") == Get(record, "id")
  {
    hide PrefillTable, PrefillRequested;
    assert outputs[..|outputs|] == outputs;
    RequestedFrame(table, outputs, |outputs|, record, "id");
    TableFrame(table, outputs, |table.entries|, PrefillRequested(table, outputs, |outputs|, record), "id");
  }

  lemma SettledId(table: Table, outputs: seq<Output>, record: Record)
    requires Computable(table, outputs) && table.Distinct() && table.Find("id").None? && !Keyed(outputs, "id")
    ensures Get(Settled(table, outputs, record), "id") == Get(record, "id")
  {
    hide Prefilled, Rounds;
    PrefilledId(table, outputs, record);
    RoundsFrame(table, Prefilled(table, outputs, record), ROUNDS, "id");
  }

  /** What the fixpoint finds under the key of a requested rollup. */
  lemma PrefilledKey(table: Table, outputs: seq<Output>, record: Record, j: nat)
    requires Computable(table, outputs) && DistinctKeys(outputs) && j < |outputs| && !Keyed(outputs, "id")
    requires IsRollup(table, outputs[j].field) && outputs[j].key !in record && table.Distinct()
    ensures Get(Prefilled(table, outputs, record), outputs[j].key) == OfId(MetaOf(table, outputs[j].field), record)
  {
    hide PrefillTable, PrefillRequested, OfId, IsRollup;
    RequestedFilled(table, outputs, |outputs|, record, j);
    assert outputs[j] in outputs && RollupKey(table, outputs, outputs[j].key);
    TableFrame(table, outputs, |table.entries|, PrefillRequested(table, outputs, |outputs|, record), outputs[j].key);
  }

  /** In the end the key of a requested rollup holds its aggregate of the record's identifier; where
      there is none, what the fixpoint left there. */
  lemma AppliedRollup(table: Table, outputs: seq<Output>, record: Record, j: nat)
    requires Computable(table, outputs) && DistinctKeys(outputs) && table.Distinct()
    requires j < |outputs| && IsRollup(table, outputs[j].field) && outputs[j].key !in record
    requires table.Find("id").None? && !Keyed(outputs, "id")
    ensures var own := OfId(MetaOf(table, outputs[j].field), record);
      Get(Applied(table, outputs, record), outputs[j].key) ==
        if own.Some? then own else Get(Settled(table, outputs, record), outputs[j].key)
  {
    hide Settled, OfId, Visit, Table.FindFrom;
    var o, settled, m := outputs[j], Settled(table, outputs, record), MetaOf(table, outputs[j].field);
    KeptInRounds(table, outputs, record, j);
    SettledId(table, outputs, record);
    var now := Written(table, outputs, j, settled);
    NoEarlierKey(outputs, j);
    assert outputs[j] in outputs;
    assert !Keyed(outputs[..j], "id");
    NotKeyed(table, outputs, settled, j, o.key);
    NotKeyed(table, outputs, settled, j, "id");
    FilledIn(table, Entry(o.key, m), now, o.key);
    SameId(m, now, record);
    KeyStays(table, outputs, settled, j, |outputs|);
  }

  lemma NoEarlierKey(outputs: seq<Output>, j: nat)
    requires DistinctKeys(outputs) && j < |outputs|
    ensures !Keyed(outputs[..j], outputs[j].key)
  {
  }

  lemma KeptInRounds(table: Table, outputs: seq<Output>, record: Record, j: nat)
    requires Computable(table, outputs) && DistinctKeys(outputs) && j < |outputs| && !Keyed(outputs, "id")
    requires IsRollup(table, outputs[j].field) && outputs[j].key !in record && table.Distinct()
    ensures OfId(MetaOf(table, outputs[j].field), record).Some? ==>
      Get(Settled(table, outputs, record), outputs[j].key) == OfId(MetaOf(table, outputs[j].field), record)
  {
    hide Prefilled, OfId, Rounds, IsRollup;
    PrefilledKey(table, outputs, record, j);
    RoundsKeep(table, Prefilled(table, outputs, record), ROUNDS);
  }

  lemma {:induction false} RollupStaysUnset(table: Table, record: Record, x: Name, i: nat)
    requires table.Distinct() && IsRollup(table, x) && table.Find("id").None? && i <= |table.entries|
    requires x !in record && OfId(MetaOf(table, x), record) == None
    ensures x !in RoundFrom(table, i, record)
    decreases |table.entries| - i
  {
    hide Visit, Table.FindFrom;
    if i < |table.entries| {
      var e := table.entries[i];
      table.FindsItself(i);
      FilledIn(table, e, record, x);
      FilledIn(table, e, record, "id");
      SameId(MetaOf(table, x), Visit(table, e, record), record);
      RollupStaysUnset(table, Visit(table, e, record), x, i + 1);
    }
  }

  lemma {:induction false} RollupNeverSet(table: Table, record: Record, x: Name, k: nat)
    requires table.Distinct() && IsRollup(table, x) && table.Find("id").None?
    requires x !in record && OfId(MetaOf(table, x), record) == None
    ensures x !in Rounds(table, record, k)
    decreases k
  {
    hide RoundFrom;
    if k > 0 {
      RollupStaysUnset(table, record, x, 0);
      RoundFrame(table, 0, record, "id");
      SameId(MetaOf(table, x), RoundFrom(table, 0, record), record);
      RollupNeverSet(table, RoundFrom(table, 0, record), x, k - 1);
    }
  }

  /** So a requested rollup shows its aggregate exactly if it has one, or the fixpoint left nothing
      under its key; and it left nothing unless the alias is the name of another computed field. */
  lemma RollupShownExactlyWhen(table: Table, outputs: seq<Output>, record: Record, j: nat)
    requires Computable(table, outputs) && DistinctKeys(outputs) && table.Distinct()
    requires j < |outputs| && IsRollup(table, outputs[j].field) && outputs[j].key !in record
    requires table.Find("id").None? && !Keyed(outputs, "id")
    ensures var own := OfId(MetaOf(table, outputs[j].field), record);
      Get(Applied(table, outputs, record), outputs[j].key) == own
      <==> (own.Some? || outputs[j].key !in Settled(table, outputs, record))
    ensures table.Find(outputs[j].key).None? || outputs[j].key == outputs[j].field ==>
      Get(Applied(table, outputs, record), outputs[j].key) == OfId(MetaOf(table, outputs[j].field), record)
  {
    hide Applied, OfId, Prefilled, Rounds, Table.FindFrom;
    var key, base := outputs[j].key, Prefilled(table, outputs, record);
    var own := OfId(MetaOf(table, outputs[j].field), record);
    AppliedRollup(table, outputs, record, j);
    if own.None? && (table.Find(key).None? || key == outputs[j].field) {
      PrefilledKey(table, outputs, record, j);
      if table.Find(key).None? {
        RoundsFrame(table, base, ROUNDS, key);
      } else {
        PrefilledId(table, outputs, record);
        SameId(MetaOf(table, key), base, record);
        RollupNeverSet(table, base, key, ROUNDS);
      }
    }
  }

  /** A rollup without a value and a formula that is always 1. */
  function OneAndNone(): Table {
    Table([Entry("paid", Rollup(id => None)), Entry("one", Formula([], inputs => Some(1)))], {})
  }

  /** A rollup without a value, requested under the name of a formula, shows the formula's. */
  lemma RollupShowsFormula()
    ensures var outputs, record := [Output("one", "paid")], map["id" := 7];
      Computable(OneAndNone(), outputs) && OneAndNone().Evaluate(MetaOf(OneAndNone(), "paid"), record) == None
      && Get(Applied(OneAndNone(), outputs, record), "one") == Some(1)
  {
    var table, outputs, record: Record := OneAndNone(), [Output("one", "paid")], map["id" := 7];
    table.FindsItself(0);
    table.FindsItself(1);
    assert table.Find("id").None?;
    AppliedRollup(table, outputs, record, 0);
    assert PrefillRequested(table, outputs, 1, record) == record;
    assert PrefillTable(table, outputs, 1, record) == record;
    var base := Prefilled(table, outputs, record);
    assert base == record;
    assert RoundFrom(table, 1, base) == RoundFrom(table, 2, base["one" := 1]);
    RoundsKeep(table, RoundFrom(table, 0, base), ROUNDS - 1);
  }

  /** A value that the record holds under the key of a requested rollup stays. */
  lemma StoredRollupStays(table: Table, outputs: seq<Output>, record: Record, j: nat)
    requires Computable(table, outputs) && DistinctKeys(outputs) && table.Distinct()
    requires j < |outputs| && IsRollup(table, outputs[j].field) && outputs[j].key in record
    ensures Get(Applied(table, outputs, record), outputs[j].key) == Some(record[outputs[j].key])
  {
    hide Visit, Rounds, PrefillTable, PrefillRequested, Written;
    var o, base, settled := outputs[j], Prefilled(table, outputs, record), Settled(table, outputs, record);
    RequestedFrame(table, outputs, |outputs|, record, o.key);
    TableFrame(table, outputs, |table.entries|, PrefillRequested(table, outputs, |outputs|, record), o.key);
    RoundsKeep(table, base, ROUNDS);
    NoEarlierKey(outputs, j);
    NotKeyed(table, outputs, settled, j, o.key);
    StoredIsWritten(table, outputs, settled, j);
    KeyStays(table, outputs, settled, j, |outputs|);
  }

  lemma StoredIsWritten(table: Table, outputs: seq<Output>, settled: Record, j: nat)
    requires Computable(table, outputs) && j < |outputs| && IsRollup(table, outputs[j].field)
    requires outputs[j].key in Written(table, outputs, j, settled)
    ensures Get(Written(table, outputs, j + 1, settled), outputs[j].key)
      == Get(Written(table, outputs, j, settled), outputs[j].key)
  {
  }

  // ----- five rounds and one evaluation can be too few --------------------------------------

  /** The names `f`, `ff`, `fff`, ... */
  function Step(i: nat): Name { seq(i + 1, _ => 'f') }

  function CopyOf(inputs: seq<int>): Option<int> { if inputs == [] then None else Some(inputs[0]) }

  /** `n` formulas, each a copy of the next one listed, the last one of column `x`. */
  function Stairs(n: nat): Table {
    Table(seq(n, i requires 0 <= i < n =>
        Entry(Step(i), Formula([if i + 1 < n then Step(i + 1) else "x"], CopyOf))), {})
  }

  lemma StairsNeeds(n: nat, i: nat)
    requires i < n
    ensures Stairs(n).Distinct() && Stairs(n).Find(Step(i)) == Some(i)
    ensures Stairs(n).Needs(Step(i)) == [if i + 1 < n then Step(i + 1) else "x"]
  {
    var table := Stairs(n);
    assert forall j, k :: 0 <= j < k < n ==> |Step(j)| != |Step(k)|;
    table.FindsItself(i);
    var r := if i + 1 < n then Step(i + 1) else "x";
    assert [r][1..] == [] && table.NonFunctions([r]) == [r] + table.NonFunctions([]);
  }

  lemma OnlySteps(n: nat, x: Name)
    requires |x| > 0 && x[0] != 'f'
    ensures Stairs(n).Find(x) == None
  {
    assert forall j | 0 <= j < n :: Stairs(n).entries[j].name[0] == 'f';
  }

  lemma StairsAreChain(n: nat)
    requires n > 0
    ensures Chain(Stairs(n)) && Stairs(n).Find("x") == None && Stairs(n).Find("id") == None
  {
    hide Table.Needs, Table.FindFrom, Step;
    var table := Stairs(n);
    StairsNeeds(n, 0);
    forall i | 0 <= i < n
      ensures table.Needs(table.entries[i].name) == [if i + 1 < n then table.entries[i + 1].name else "x"]
    {
      StairsNeeds(n, i);
    }
    OnlySteps(n, "x");
    OnlySteps(n, "id");
    StairsNeeds(n, n - 1);
  }

  lemma {:induction false} StairsValue(n: nat, i: nat, v: int)
    requires i < n && Ranked(Stairs(n), ChainRank(Stairs(n)))
    ensures Value(Stairs(n), ChainRank(Stairs(n)), map["x" := v], Step(i)) == Some(v)
    decreases n - i
  {
    hide Table.FindFrom, Ranked, Step, Table.Reads, ChainRank, Names;
    var table, rank, base := Stairs(n), ChainRank(Stairs(n)), map["x" := v];
    StairsNeeds(n, i);
    var r := if i + 1 < n then Step(i + 1) else "x";
    if i + 1 < n {
      StairsValue(n, i + 1, v);
    }
    StairsRanked(n, i);
    CopyValue(table, rank, base, Step(i), r, v);
  }

  lemma StairsRanked(n: nat, i: nat)
    requires i < n
    ensures Step(i) in ChainRank(Stairs(n)) && Step(i) != "x"
  {
    hide Table.FindFrom, Table.Needs;
    StairsNeeds(n, i);
    OnlySteps(n, "x");
    assert Stairs(n).entries[i].name == Step(i);
  }

  /** A copying formula has the value of what it reads. */
  lemma CopyValue(table: Table, rank: map<Name, nat>, base: Record, x: Name, r: Name, v: int)
    requires Ranked(table, rank) && table.Find(x).Some? && x in rank && x !in base && table.Needs(x) == [r]
    requires MetaOf(table, x).Formula? && MetaOf(table, x).apply == CopyOf
    requires Value(table, rank, base, r) == Some(v)
    ensures Value(table, rank, base, x) == Some(v)
  {
    hide Table.FindFrom;
    var needs := table.Needs(x);
    assert r in needs && needs[0] == r;
  }

  /** Without rollups there is nothing to prefill. */
  lemma NoRollupsNoPrefill(table: Table, outputs: seq<Output>, record: Record)
    requires Computable(table, outputs) && forall i | 0 <= i < |table.entries| :: table.entries[i].meta.Formula?
    ensures Prefilled(table, outputs, record) == record
  {
    NoRequestedRollups(table, outputs, record, |outputs|);
    NoTableRollups(table, outputs, record, |table.entries|);
  }

  lemma {:induction false} NoRequestedRollups(table: Table, outputs: seq<Output>, record: Record, j: nat)
    requires Computable(table, outputs) && forall i | 0 <= i < |table.entries| :: table.entries[i].meta.Formula?
    requires j <= |outputs|
    ensures PrefillRequested(table, outputs, j, record) == record
  {
    if j > 0 {
      NoRequestedRollups(table, outputs, record, j - 1);
    }
  }

  lemma {:induction false} NoTableRollups(table: Table, outputs: seq<Output>, record: Record, n: nat)
    requires n <= |table.entries| && forall i | 0 <= i < |table.entries| :: table.entries[i].meta.Formula?
    ensures PrefillTable(table, outputs, n, record) == record
  {
    if n > 0 {
      NoTableRollups(table, outputs, record, n - 1);
    }
  }

  /** The first of `n` stairs has a value; the fixpoint finds it only for five stairs or fewer,
      and the last evaluation of the requested field only for six. */
  lemma StairsTooHigh(n: nat, v: int)
    requires n > 0
    ensures Ranked(Stairs(n), ChainRank(Stairs(n))) && Computable(Stairs(n), [Output(Step(0), Step(0))])
    ensures Value(Stairs(n), ChainRank(Stairs(n)), map["x" := v], Step(0)) == Some(v)
    ensures Get(Rounds(Stairs(n), map["x" := v], ROUNDS), Step(0)) == if n <= 5 then Some(v) else None
    ensures Get(Applied(Stairs(n), [Output(Step(0), Step(0))], map["x" := v]), Step(0))
      == if n <= 6 then Some(v) else None
  {
    hide Ranked, Value, Table.FindFrom, Chain, WithinRounds, Rounds, Applied, Prefilled, Step, Table.Reads;
    var table, rank, base, outputs := Stairs(n), ChainRank(Stairs(n)), map["x" := v], [Output(Step(0), Step(0))];
    StairsAreChain(n);
    ChainIsRanked(table);
    StairsNeeds(n, 0);
    StairsValue(n, 0, v);
    forall j | 0 <= j < n ensures table.entries[j].name !in base { StairsNeeds(n, j); }
    ChainNeedsItsLength(table, base, 0, ROUNDS);
    NoRollupsNoPrefill(table, outputs, base);
    AppliedExactly(table, rank, outputs, base, 0, iset x: Name | |x| >= 0);
    ColumnWithinRounds(table, rank, base, "x");
    if n > 1 {
      ChainWithinRounds(table, base, 1, ROUNDS);
      assert table.entries[1].name == Step(1);
    }
    var r := if n > 1 then Step(1) else "x";
    assert table.Needs(Step(0)) == [r] && r in table.Needs(Step(0));
    assert AtHand(table, rank, base, outputs, 0, r) <==> n <= 6;
    assert AllAtHand(table, rank, base, outputs, 0, Step(0)) <==> AtHand(table, rank, base, outputs, 0, r);
    assert outputs[0] == Output(Step(0), Step(0));
  }
}
