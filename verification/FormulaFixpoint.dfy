/** The five-round fixpoint that fills in a record's computed fields (`_resolve_formula_deps`,
    api/BL/computed_fields.py:1836-1865), and exactly which fields it reaches. */
module FormulaFixpoint {
  import opened Prelude
  import opened FormulaTable

  const ROUNDS: nat := 5

  // ----- rounds ---------------------------------------------------------------------------

  function Visit(table: Table, e: Entry, record: Record): Record {
    if e.name in record then record
    else
      match table.Evaluate(e.meta, record)
      case None => record
      case Some(v) => record[e.name := v]
  }

  /** The entries from position `i` on, each seeing what the ones before it wrote. */
  function RoundFrom(table: Table, i: nat, record: Record): Record
    requires i <= |table.entries|
    decreases |table.entries| - i
  {
    if i == |table.entries| then record else RoundFrom(table, i + 1, Visit(table, table.entries[i], record))
  }

  /** `k` full rounds, without stopping early. */
  function Rounds(table: Table, record: Record, k: nat): Record
    decreases k
  {
    if k == 0 then record else Rounds(table, RoundFrom(table, 0, record), k - 1)
  }

  lemma {:induction false} RoundKeeps(table: Table, i: nat, record: Record)
    requires i <= |table.entries|
    ensures forall x | x in record :: x in RoundFrom(table, i, record) && RoundFrom(table, i, record)[x] == record[x]
    decreases |table.entries| - i
  {
    if i < |table.entries| {
      RoundKeeps(table, i + 1, Visit(table, table.entries[i], record));
    }
  }

  /** No value that a record already holds is ever overwritten. */
  lemma {:induction false} RoundsKeep(table: Table, record: Record, k: nat)
    ensures forall x | x in record :: x in Rounds(table, record, k) && Rounds(table, record, k)[x] == record[x]
    decreases k
  {
    if k > 0 {
      RoundKeeps(table, 0, record);
      RoundsKeep(table, RoundFrom(table, 0, record), k - 1);
    }
  }

  lemma {:induction false} UnchangedForever(table: Table, record: Record, k: nat)
    requires RoundFrom(table, 0, record) == record
    ensures Rounds(table, record, k) == record
  {
    if k > 0 {
      UnchangedForever(table, record, k - 1);
    }
  }

  /** A record being filled in; the source updates the dictionary in place. */
  class Row {
    var fields: Record

    constructor (fields: Record)
      ensures this.fields == fields
    {
      this.fields := fields;
    }
  }

  /** Stopping at the first round that changes nothing loses nothing against five full rounds. */
  method ResolveFormulaDeps(table: Table, row: Row)
    modifies row
    ensures row.fields == Rounds(table, old(row.fields), ROUNDS)
  {
    for iteration := 0 to ROUNDS
      invariant Rounds(table, row.fields, ROUNDS - iteration) == Rounds(table, old(row.fields), ROUNDS)
    {
      ghost var before := row.fields;
      var changed := false;
      for i := 0 to |table.entries|
        invariant RoundFrom(table, i, row.fields) == RoundFrom(table, 0, before)
        invariant !changed ==> row.fields == before
      {
        var e := table.entries[i];
        if e.name !in row.fields {
          var value := table.Evaluate(e.meta, row.fields);
          if value.Some? {
            row.fields := row.fields[e.name := value.value];
            changed := true;
          }
        }
      }
      if !changed {
        UnchangedForever(table, before, ROUNDS - iteration);
        return;
      }
    }
  }

  // ----- the values the formulas define ---------------------------------------------------

  /** Acyclic below the ranked fields: each ranks above the computed fields it reads, from 1
      upwards.  Fields left out of `rank` may be defined through each other. */
  ghost predicate Ranked(table: Table, rank: map<Name, nat>) {
    forall x | x in rank && table.Find(x).Some? ::
      rank[x] >= 1 && forall r | r in table.Needs(x) && table.Find(r).Some? :: r in rank && rank[r] < rank[x]
  }

  /** A field that is ranked, or not computed at all. */
  ghost predicate Known(table: Table, rank: map<Name, nat>, x: Name) { table.Find(x).Some? ==> x in rank }

  /** Zero for fields that are not computed. */
  ghost function RankOf(table: Table, rank: map<Name, nat>, x: Name): nat {
    if table.Find(x).Some? && x in rank then rank[x] else 0
  }

  /** The value of a known field over the given base record: stored, or computed from its reads. */
  ghost function Value(table: Table, rank: map<Name, nat>, base: Record, x: Name): Option<int>
    requires Ranked(table, rank)
    decreases RankOf(table, rank, x)
  {
    if x in base then Some(base[x])
    else if table.Find(x).None? || x !in rank then None
    else
      var needs := table.Needs(x);
      if forall r | r in needs :: Value(table, rank, base, r).Some?
      then
        var inputs := seq(|needs|, i requires 0 <= i < |needs| => Value(table, rank, base, needs[i]).value);
        table.Apply(table.entries[table.Find(x).value].meta, inputs)
      else None
  }

  function Get(record: Record, x: Name): Option<int> {
    if x in record then Some(record[x]) else None
  }

  /** Evaluating a field on a record in which exactly its reads with `at` hand their value. */
  lemma EvaluateIsValue(table: Table, rank: map<Name, nat>, base: Record, record: Record, x: Name, atHand: set<Name>)
    requires Ranked(table, rank) && table.Find(x).Some? && x in rank && x !in base
    requires forall r | r in table.Needs(x) ::
      Get(record, r) == if r in atHand then Value(table, rank, base, r) else None
    ensures table.Evaluate(table.entries[table.Find(x).value].meta, record)
      == if forall r | r in table.Needs(x) :: r in atHand then Value(table, rank, base, x) else None
  {
    hide Table.Reads, Table.FindFrom, Table.Apply;
    var needs := table.Needs(x);
    forall r | r in needs ensures r in record <==> r in atHand && Value(table, rank, base, r).Some? {
      assert Get(record, r) == if r in atHand then Value(table, rank, base, r) else None;
    }
    if forall r | r in needs :: r in record {
      assert table.Values(needs, record) ==
        seq(|needs|, i requires 0 <= i < |needs| => Value(table, rank, base, needs[i]).value);
    }
  }

  /** A record that agrees with the base and satisfies every formula of the table. */
  ghost predicate Solves(table: Table, base: Record, sol: Record) {
    && (forall x | x in base :: x in sol && sol[x] == base[x])
    && (forall x | x in sol :: x in base || table.Find(x).Some?)
    && forall i | 0 <= i < |table.entries| && table.entries[i].name !in base ::
         Get(sol, table.entries[i].name) == table.Evaluate(table.entries[i].meta, sol)
  }

  /** All solutions agree on the known fields, with `Value`. */
  lemma {:induction false} SolutionUnique(table: Table, rank: map<Name, nat>, base: Record, sol: Record, x: Name)
    requires Ranked(table, rank) && Solves(table, base, sol) && Known(table, rank, x)
    ensures Get(sol, x) == Value(table, rank, base, x)
    decreases RankOf(table, rank, x)
  {
    hide Table.Reads, Table.FindFrom, Table.Apply;
    if x !in base && table.Find(x).Some? {
      assert table.entries[table.Find(x).value].name == x;
      var needs := table.Needs(x);
      forall r | r in needs ensures Get(sol, r) == Value(table, rank, base, r) {
        SolutionUnique(table, rank, base, sol, r);
      }
      EvaluateIsValue(table, rank, base, sol, x, set r | r in needs);
    }
  }

  ghost function Names(table: Table): (names: set<Name>) {
    set i | 0 <= i < |table.entries| :: table.entries[i].name
  }

  /** Every field that has a value, with that value. */
  ghost function Defined(table: Table, rank: map<Name, nat>, base: Record): Record
    requires Ranked(table, rank)
  {
    map x | x in base.Keys + Names(table) && Value(table, rank, base, x).Some? :: Value(table, rank, base, x).value
  }

  lemma DefinedIsValue(table: Table, rank: map<Name, nat>, base: Record, x: Name)
    requires Ranked(table, rank)
    ensures Get(Defined(table, rank, base), x) == Value(table, rank, base, x)
  {
    if table.Find(x).Some? {
      assert table.entries[table.Find(x).value].name in Names(table);
    }
  }

  lemma DefinedSatisfies(table: Table, rank: map<Name, nat>, base: Record, i: nat)
    requires Ranked(table, rank) && table.Distinct() && i < |table.entries|
    requires table.entries[i].name in rank && table.entries[i].name !in base
    ensures Get(Defined(table, rank, base), table.entries[i].name)
      == table.Evaluate(table.entries[i].meta, Defined(table, rank, base))
  {
    hide Defined, Ranked, Value, Table.Find, Table.Reads;
    var sol, x := Defined(table, rank, base), table.entries[i].name;
    table.FindsItself(i);
    forall r ensures Get(sol, r) == Value(table, rank, base, r) {
      DefinedIsValue(table, rank, base, r);
    }
    EvaluateIsValue(table, rank, base, sol, x, set r | r in table.Needs(x));
  }

  /** ... and in an acyclic table there is one: the defined values themselves. */
  lemma SolutionExists(table: Table, rank: map<Name, nat>, base: Record) returns (sol: Record)
    requires Ranked(table, rank) && table.Distinct() && forall x :: Known(table, rank, x)
    ensures Solves(table, base, sol)
  {
    hide Value, Table.FindFrom, Table.Reads;
    sol := Defined(table, rank, base);
    forall x | x in sol ensures x in base || table.Find(x).Some? {
      DefinedIsValue(table, rank, base, x);
      if x !in base && table.Find(x).None? {
        UnknownHasNoValue(table, rank, base, x);
      }
    }
    forall x | x in base ensures x in sol && sol[x] == base[x] {
      DefinedIsValue(table, rank, base, x);
      StoredIsValue(table, rank, base, x);
    }
    forall i | 0 <= i < |table.entries| && table.entries[i].name !in base
      ensures Get(sol, table.entries[i].name) == table.Evaluate(table.entries[i].meta, sol)
    {
      table.FindsItself(i);
      assert Known(table, rank, table.entries[i].name);
      DefinedSatisfies(table, rank, base, i);
    }
  }

  lemma UnknownHasNoValue(table: Table, rank: map<Name, nat>, base: Record, x: Name)
    requires Ranked(table, rank) && x !in base && (table.Find(x).None? || x !in rank)
    ensures Value(table, rank, base, x) == None
  {
  }

  lemma StoredIsValue(table: Table, rank: map<Name, nat>, base: Record, x: Name)
    requires Ranked(table, rank) && x in base
    ensures Value(table, rank, base, x) == Some(base[x])
  {
  }

  // ----- which fields k rounds reach ------------------------------------------------------

  /** Field `x` needs at most `k` rounds: nothing for a stored value; otherwise its reads must be
      ready, those listed later in the dictionary one round earlier. */
  ghost predicate WithinRounds(table: Table, rank: map<Name, nat>, base: Record, x: Name, k: nat)
    requires Ranked(table, rank)
    decreases RankOf(table, rank, x)
  {
    x in base || table.Find(x).None?
    || (x in rank && k >= 1 && forall r | r in table.Needs(x) ::
          WithinRounds(table, rank, base, r, Budget(table, r, x, k)))
  }

  /** The rounds left for `r` when `x`, which reads it, may take `k`. */
  function Budget(table: Table, r: Name, x: Name, k: nat): nat
    requires k >= 1
  {
    if Later(table, r, x) then k - 1 else k
  }

  /** Both are computed, and `r` comes after `x` in dictionary order. */
  predicate Later(table: Table, r: Name, x: Name) {
    table.Find(r).Some? && table.Find(x).Some? && table.Find(r).value > table.Find(x).value
  }

  lemma {:induction false} MoreRoundsReachMore(table: Table, rank: map<Name, nat>, base: Record, x: Name, k: nat,
          k': nat)
    requires Ranked(table, rank) && k <= k' && WithinRounds(table, rank, base, x, k)
    ensures WithinRounds(table, rank, base, x, k')
    decreases RankOf(table, rank, x)
  {
    if x !in base && table.Find(x).Some? {
      forall r | r in table.Needs(x)
        ensures WithinRounds(table, rank, base, r, Budget(table, r, x, k'))
      {
        MoreRoundsReachMore(table, rank, base, r, Budget(table, r, x, k), Budget(table, r, x, k'));
      }
    }
  }

  /** Whatever the dictionary order, as many rounds as the dependency rank are enough. */
  lemma {:induction false} RankSuffices(table: Table, rank: map<Name, nat>, base: Record, x: Name, k: nat)
    requires Ranked(table, rank) && Known(table, rank, x) && RankOf(table, rank, x) <= k
    ensures WithinRounds(table, rank, base, x, k)
    decreases RankOf(table, rank, x)
  {
    if x !in base && table.Find(x).Some? {
      forall r | r in table.Needs(x)
        ensures WithinRounds(table, rank, base, r, Budget(table, r, x, k))
      {
        RankSuffices(table, rank, base, r, Budget(table, r, x, k));
      }
    }
  }

  /** Reached by `k` full rounds and the first `i` entries of the next one. */
  ghost predicate Ready(table: Table, rank: map<Name, nat>, base: Record, x: Name, k: nat, i: nat)
    requires Ranked(table, rank)
  {
    WithinRounds(table, rank, base, x, k)
    || (WithinRounds(table, rank, base, x, k + 1) && table.Find(x).Some? && table.Find(x).value < i)
  }

  /** The record holds the known fields reached so far, with their values, and no other known one. */
  ghost predicate HoldsReady(table: Table, rank: map<Name, nat>, base: Record, record: Record, k: nat, i: nat)
    requires Ranked(table, rank)
  {
    forall x | Known(table, rank, x) ::
      Get(record, x) == if Ready(table, rank, base, x, k, i) then Value(table, rank, base, x) else None
  }

  /** When entry `x` is visited, a field it reads is at hand exactly if it is within budget. */
  lemma ReadAtHand(table: Table, rank: map<Name, nat>, base: Record, x: Name, r: Name, k: nat)
    requires Ranked(table, rank) && table.Find(x).Some? && x in rank && r in table.Needs(x)
    ensures Ready(table, rank, base, r, k, table.Find(x).value)
      <==> WithinRounds(table, rank, base, r, Budget(table, r, x, k + 1))
  {
    hide WithinRounds, Table.Reads;
    if WithinRounds(table, rank, base, r, k) {
      MoreRoundsReachMore(table, rank, base, r, k, k + 1);
    }
    ColumnWithinRounds(table, rank, base, r);
    assert table.Find(r).Some? ==> r != x;
    if table.Find(r).Some? {
      assert table.entries[table.Find(r).value].name == r && table.entries[table.Find(x).value].name == x;
    }
  }

  lemma ColumnWithinRounds(table: Table, rank: map<Name, nat>, base: Record, r: Name)
    requires Ranked(table, rank)
    ensures table.Find(r).None? ==> forall k :: WithinRounds(table, rank, base, r, k)
  {
  }

  /** What evaluating entry `x` in round `k + 1` gives. */
  lemma EvaluateReady(table: Table, rank: map<Name, nat>, base: Record, record: Record, x: Name, k: nat)
    requires Ranked(table, rank) && table.Find(x).Some? && x in rank && x !in base
    requires HoldsReady(table, rank, base, record, k, table.Find(x).value)
    ensures table.Evaluate(table.entries[table.Find(x).value].meta, record)
      == if WithinRounds(table, rank, base, x, k + 1) then Value(table, rank, base, x) else None
  {
    hide Value, Table.Reads, Ready, Table.FindFrom;
    var i, needs := table.Find(x).value, table.Needs(x);
    var atHand := set r | r in needs && Ready(table, rank, base, r, k, i);
    forall r | r in needs
      ensures Get(record, r) == if r in atHand then Value(table, rank, base, r) else None
      ensures r in atHand <==> WithinRounds(table, rank, base, r, Budget(table, r, x, k + 1))
    {
      assert Known(table, rank, r);
      ReadAtHand(table, rank, base, x, r, k);
    }
    EvaluateIsValue(table, rank, base, record, x, atHand);
  }

  lemma VisitReaches(table: Table, rank: map<Name, nat>, base: Record, record: Record, k: nat, i: nat)
    requires Ranked(table, rank) && table.Distinct() && i < |table.entries|
    requires HoldsReady(table, rank, base, record, k, i)
    ensures HoldsReady(table, rank, base, Visit(table, table.entries[i], record), k, i + 1)
  {
    hide Value, WithinRounds, Table.Reads, Table.FindFrom, Table.Evaluate, Ranked;
    var x, after := table.entries[i].name, Visit(table, table.entries[i], record);
    table.FindsItself(i);
    if x in rank {
      if x in base {
        StoredIsReached(table, rank, base, x, k);
      } else {
        EvaluateReady(table, rank, base, record, x, k);
      }
      if WithinRounds(table, rank, base, x, k) {
        MoreRoundsReachMore(table, rank, base, x, k, k + 1);
      }
    }
    forall y | Known(table, rank, y)
      ensures Get(after, y) == if Ready(table, rank, base, y, k, i + 1) then Value(table, rank, base, y) else None
    {
      assert Get(record, y) == if Ready(table, rank, base, y, k, i) then Value(table, rank, base, y) else None;
      if y != x {
        assert table.Find(y) != Some(i);
      }
    }
  }

  lemma StoredIsReached(table: Table, rank: map<Name, nat>, base: Record, x: Name, k: nat)
    requires Ranked(table, rank) && x in base
    ensures Value(table, rank, base, x) == Some(base[x]) && WithinRounds(table, rank, base, x, k)
  {
  }

  lemma {:induction false} RoundReaches(table: Table, rank: map<Name, nat>, base: Record, record: Record, k: nat,
          i: nat)
    requires Ranked(table, rank) && table.Distinct() && i <= |table.entries|
    requires HoldsReady(table, rank, base, record, k, i)
    ensures HoldsReady(table, rank, base, RoundFrom(table, i, record), k + 1, 0)
    decreases |table.entries| - i
  {
    hide Value, WithinRounds, Visit, Ranked;
    if i < |table.entries| {
      VisitReaches(table, rank, base, record, k, i);
      RoundReaches(table, rank, base, Visit(table, table.entries[i], record), k, i + 1);
    } else {
      forall x | Known(table, rank, x)
        ensures Get(record, x) == if Ready(table, rank, base, x, k + 1, 0) then Value(table, rank, base, x) else None
      {
        ColumnWithinRounds(table, rank, base, x);
        if WithinRounds(table, rank, base, x, k) {
          MoreRoundsReachMore(table, rank, base, x, k, k + 1);
        }
        assert Get(record, x) == if Ready(table, rank, base, x, k, i) then Value(table, rank, base, x) else None;
      }
    }
  }

  lemma {:induction false} RoundsReach(table: Table, rank: map<Name, nat>, base: Record, record: Record, done: nat,
          k: nat)
    requires Ranked(table, rank) && table.Distinct() && HoldsReady(table, rank, base, record, done, 0)
    ensures HoldsReady(table, rank, base, Rounds(table, record, k), done + k, 0)
    decreases k
  {
    hide Ranked, HoldsReady, RoundFrom;
    if k > 0 {
      RoundReaches(table, rank, base, record, done, 0);
      RoundsReach(table, rank, base, RoundFrom(table, 0, record), done + 1, k - 1);
    }
  }

  /** After `k` rounds the record holds exactly the known fields that have a value and need at
      most `k` rounds, each with that value; the rest of the table may be circular. */
  lemma RoundsExactly(table: Table, rank: map<Name, nat>, base: Record, k: nat, x: Name)
    requires Ranked(table, rank) && table.Distinct() && Known(table, rank, x)
    ensures Get(Rounds(table, base, k), x) ==
      if WithinRounds(table, rank, base, x, k) then Value(table, rank, base, x) else None
  {
    hide Ranked, Rounds, Table.Reads, Table.FindFrom;
    assert HoldsReady(table, rank, base, base, 0, 0);
    RoundsReach(table, rank, base, base, 0, k);
    hide WithinRounds, Value;
    var reached := Rounds(table, base, k);
    assert Get(reached, x) == if Ready(table, rank, base, x, k, 0) then Value(table, rank, base, x) else None;
  }

  /** Fields of dependency rank at most five always receive their value. */
  lemma FiveRoundsSuffice(table: Table, rank: map<Name, nat>, base: Record, x: Name)
    requires Ranked(table, rank) && table.Distinct() && Known(table, rank, x) && RankOf(table, rank, x) <= ROUNDS
    ensures Get(Rounds(table, base, ROUNDS), x) == Value(table, rank, base, x)
  {
    RankSuffices(table, rank, base, x, ROUNDS);
    RoundsExactly(table, rank, base, ROUNDS, x);
  }

  // ----- five rounds can be too few -------------------------------------------------------

  /** Each formula reads just the next one in the dictionary, the last one only columns. */
  ghost predicate Chain(table: Table) {
    && table.Distinct() && table.entries != []
    && (forall j | 0 <= j < |table.entries| - 1 :: table.Needs(table.entries[j].name) == [table.entries[j + 1].name])
    && forall r | r in table.Needs(table.entries[|table.entries| - 1].name) :: table.Find(r).None?
  }

  ghost function ChainRank(table: Table): map<Name, nat> {
    map x | x in Names(table) && table.Find(x).Some? :: |table.entries| - table.Find(x).value
  }

  lemma ChainIsRanked(table: Table)
    requires Chain(table)
    ensures Ranked(table, ChainRank(table)) && forall x :: Known(table, ChainRank(table), x)
  {
    hide Table.Reads, Table.FindFrom, Table.Needs;
    var rank := ChainRank(table);
    forall x | table.Find(x).Some? ensures x in rank {
      assert table.entries[table.Find(x).value].name in Names(table);
    }
    forall x | x in rank && table.Find(x).Some?
      ensures forall r | r in table.Needs(x) && table.Find(r).Some? :: r in rank && rank[r] < rank[x]
    {
      var j := table.Find(x).value;
      if j + 1 < |table.entries| {
        assert table.Needs(table.entries[j].name) == [table.entries[j + 1].name];
        table.FindsItself(j + 1);
      }
    }
  }

  lemma {:induction false} ChainWithinRounds(table: Table, base: Record, i: nat, k: nat)
    requires Chain(table) && Ranked(table, ChainRank(table)) && i < |table.entries|
    requires forall j | 0 <= j < |table.entries| :: table.entries[j].name !in base
    ensures WithinRounds(table, ChainRank(table), base, table.entries[i].name, k) <==> k >= |table.entries| - i
    decreases |table.entries| - i
  {
    hide Table.Reads, Table.FindFrom, Table.Needs, Ranked;
    var rank := ChainRank(table);
    table.FindsItself(i);
    assert table.entries[i].name in Names(table);
    if i + 1 < |table.entries| {
      var x, y := table.entries[i].name, table.entries[i + 1].name;
      table.FindsItself(i + 1);
      assert table.Needs(x) == [y] && Later(table, y, x);
      if k >= 1 {
        ChainWithinRounds(table, base, i + 1, k - 1);
        assert y in table.Needs(x) && Budget(table, y, x, k) == k - 1;
      }
    } else {
      forall r ensures table.Find(r).None? ==> forall k :: WithinRounds(table, rank, base, r, k) {
        ColumnWithinRounds(table, rank, base, r);
      }
    }
  }

  /** In a chain listed from its last consequence down, position `i` of `n` is filled in by `k`
      rounds exactly if `k` is at least `n - i`; so what lies more than five steps from the end
      of the chain stays unset, though it has a value. */
  lemma ChainNeedsItsLength(table: Table, base: Record, i: nat, k: nat)
    requires Chain(table) && i < |table.entries|
    requires forall j | 0 <= j < |table.entries| :: table.entries[j].name !in base
    ensures Ranked(table, ChainRank(table))
    ensures Get(Rounds(table, base, k), table.entries[i].name) ==
      if k >= |table.entries| - i then Value(table, ChainRank(table), base, table.entries[i].name) else None
  {
    hide Ranked, Value, WithinRounds, ChainRank, Rounds, Table.Needs;
    ChainIsRanked(table);
    ChainWithinRounds(table, base, i, k);
    RoundsExactly(table, ChainRank(table), base, k, table.entries[i].name);
  }

  // ----- cyclic definitions ---------------------------------------------------------------

  ghost predicate ReadsAny(table: Table, x: Name, names: set<Name>) {
    exists r :: r in table.Needs(x) && r in names
  }

  /** Each of these fields reads another one of them. */
  ghost predicate Circular(table: Table, cycle: set<Name>) {
    forall x | x in cycle :: ReadsAny(table, x, cycle)
  }

  ghost predicate Unset(record: Record, cycle: set<Name>) {
    forall x | x in cycle :: x !in record
  }

  lemma VisitSkipsCycle(table: Table, record: Record, cycle: set<Name>, i: nat)
    requires table.Distinct() && Circular(table, cycle) && Unset(record, cycle) && i < |table.entries|
    ensures Unset(Visit(table, table.entries[i], record), cycle)
  {
    hide Table.Reads, Table.FindFrom, Table.Apply, Circular;
    var e := table.entries[i];
    table.FindsItself(i);
    if e.name in cycle {
      var r := NextInCycle(table, cycle, e.name);
      assert table.Evaluate(e.meta, record) == None;
    }
  }

  lemma NextInCycle(table: Table, cycle: set<Name>, x: Name) returns (r: Name)
    requires Circular(table, cycle) && x in cycle
    ensures r in table.Needs(x) && r in cycle
  {
    hide Table.Needs;
    r :| r in table.Needs(x) && r in cycle;
  }

  lemma {:induction false} RoundSkipsCycle(table: Table, record: Record, cycle: set<Name>, i: nat)
    requires table.Distinct() && Circular(table, cycle) && Unset(record, cycle) && i <= |table.entries|
    ensures Unset(RoundFrom(table, i, record), cycle)
    decreases |table.entries| - i
  {
    hide Circular, Unset, Visit;
    if i < |table.entries| {
      VisitSkipsCycle(table, record, cycle, i);
      RoundSkipsCycle(table, Visit(table, table.entries[i], record), cycle, i + 1);
    }
  }

  /** Without any assumption of acyclicity: fields defined through each other stay unset. */
  lemma {:induction false} CircularStaysUnset(table: Table, record: Record, cycle: set<Name>, k: nat)
    requires table.Distinct() && Circular(table, cycle) && Unset(record, cycle)
    ensures Unset(Rounds(table, record, k), cycle)
    decreases k
  {
    hide Circular, Unset, RoundFrom;
    if k > 0 {
      RoundSkipsCycle(table, record, cycle, 0);
      CircularStaysUnset(table, RoundFrom(table, 0, record), cycle, k - 1);
    }
  }
}
