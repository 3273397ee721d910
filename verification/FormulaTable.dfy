/** The computed fields of one table, and what one of them evaluates to on a record
    (api/BL/computed_fields.py). */
module FormulaTable {
  import opened Prelude

  type Name = string

  /** A record's non-None values; a field that is absent and one that is None behave alike. */
  type Record = map<Name, int>

  /** A strict formula: `tokens` are the identifiers in its text, `apply` maps the values of
      those that are no function names to its value, None standing for None or an exception.
      A rollup summary aggregates child rows of the record's own `id`. */
  datatype Meta =
    | Formula(tokens: seq<Name>, apply: seq<int> -> Option<int>)
    | Rollup(aggregate: int -> Option<int>)

  datatype Entry = Entry(name: Name, meta: Meta)

  /** `table_computed` in dictionary order; `functions` are the names in `function_metadata`. */
  datatype Table = Table(entries: seq<Entry>, functions: set<Name>) {
    ghost predicate Distinct() {
      forall i, j :: 0 <= i < j < |entries| ==> entries[i].name != entries[j].name
    }

    /** Position of a computed field in dictionary order. */
    function Find(name: Name): (p: Option<nat>)
      ensures p.Some? ==> p.value < |entries| && entries[p.value].name == name
    {
      FindFrom(name, 0)
    }

    function FindFrom(name: Name, i: nat): (p: Option<nat>)
      requires i <= |entries|
      ensures p.Some? ==> i <= p.value < |entries| && entries[p.value].name == name
      decreases |entries| - i
    {
      if i == |entries| then None
      else if entries[i].name == name then Some(i)
      else FindFrom(name, i + 1)
    }

    lemma {:induction false} FindReaches(name: Name, i: nat, j: nat)
      requires i <= j < |entries| && entries[j].name == name
      ensures FindFrom(name, i).Some? && FindFrom(name, i).value <= j
      decreases j - i
    {
      if entries[i].name != name {
        FindReaches(name, i + 1, j);
      }
    }

    /** With distinct names an entry is found at its own position. */
    lemma FindsItself(j: nat)
      requires Distinct() && j < |entries|
      ensures Find(entries[j].name) == Some(j)
    {
      FindReaches(entries[j].name, 0, j);
    }

    /** The fields that computing `name` reads; none for a field that is not computed. */
    function Needs(name: Name): seq<Name> {
      match Find(name) case None => [] case Some(p) => Reads(entries[p].meta)
    }

    /** The fields an entry reads: a formula every identifier, a rollup the record's id. */
    function Reads(m: Meta): seq<Name> {
      match m
      case Formula(tokens, _) => NonFunctions(tokens)
      case Rollup(_) => ["id"]
    }

    function NonFunctions(tokens: seq<Name>): (out: seq<Name>)
      ensures forall x :: x in out <==> x in tokens && x !in functions
    {
      if tokens == [] then []
      else (if tokens[0] in functions then [] else [tokens[0]]) + NonFunctions(tokens[1..])
    }

    /** Missing input makes a strict formula fail, and a failure leaves the field unset. */
    function Evaluate(m: Meta, record: Record): Option<int> {
      if forall x | x in Reads(m) :: x in record then Apply(m, Values(Reads(m), record)) else None
    }

    /** The value of an entry for given values of the fields it reads. */
    function Apply(m: Meta, inputs: seq<int>): Option<int>
      requires |inputs| == |Reads(m)|
    {
      match m
      case Formula(_, apply) => apply(inputs)
      case Rollup(aggregate) => aggregate(inputs[0])
    }

    function Values(names: seq<Name>, record: Record): seq<int>
      requires forall x | x in names :: x in record
    {
      seq(|names|, i requires 0 <= i < |names| => record[names[i]])
    }

    lemma {:induction false} NonFunctionsNext(tokens: seq<Name>, x: Name)
      ensures NonFunctions(tokens + [x]) == NonFunctions(tokens) + if x in functions then [] else [x]
    {
      hide FindFrom;
      if tokens == [] {
        assert tokens + [x] == [x] && [x][1..] == [];
        assert NonFunctions([x][1..]) == [];
      } else {
        NonFunctionsNext(tokens[1..], x);
        assert (tokens + [x])[1..] == tokens[1..] + [x] && (tokens + [x])[0] == tokens[0];
        Assoc(if tokens[0] in functions then [] else [tokens[0]], NonFunctions(tokens[1..]),
              if x in functions then [] else [x]);
      }
    }

    function Identifiers(): Name -> bool { (token: Name) => token !in functions }

    /** The identifiers of a text are its tokens that are no function names, in order, with repetitions. */
    lemma {:induction false} IdentifiersInOrder(tokens: seq<Name>, n: nat) returns (at: seq<nat>)
      requires n <= |tokens|
      ensures Picked(tokens, n, Identifiers(), at, NonFunctions(tokens[..n]))
    {
      hide Picked, NonFunctions;
      if n == 0 {
        at := [];
        PickNothing(tokens, Identifiers());
        NoIdentifiers();
      } else {
        at := IdentifiersInOrder(tokens, n - 1);
        var before, token := NonFunctions(tokens[..n - 1]), tokens[n - 1];
        PrefixNext(tokens, n - 1);
        NonFunctionsNext(tokens[..n - 1], token);
        PickNext(tokens, n - 1, Identifiers(), at, before);
        if token in functions {
          assert before + [] == before;
        } else {
          at := at + [n - 1];
        }
      }
    }

    lemma NoIdentifiers()
      ensures NonFunctions([]) == []
    {
    }

    /** A rollup aggregates the children of the record's id.  A formula is applied to the values of the
        identifiers in its text, one by one, and has no value when one of them is missing. */
    lemma EvaluateMeans(m: Meta, record: Record)
      ensures m.Rollup? ==> Evaluate(m, record) == if "id" in record then m.aggregate(record["id"]) else None
      ensures m.Formula? && (exists x :: x in m.tokens && x !in functions && x !in record) ==>
        Evaluate(m, record) == None
      ensures forall inputs: seq<int> | m.Formula? && |inputs| == |NonFunctions(m.tokens)|
        && (forall i | 0 <= i < |inputs| ::
          NonFunctions(m.tokens)[i] in record && record[NonFunctions(m.tokens)[i]] == inputs[i]) ::
        Evaluate(m, record) == m.apply(inputs)
    {
      hide FindFrom;
      if m.Formula? {
        hide NonFunctions;
        var names := NonFunctions(m.tokens);
        forall inputs: seq<int> | |inputs| == |names|
          && forall i | 0 <= i < |inputs| :: names[i] in record && record[names[i]] == inputs[i]
          ensures Evaluate(m, record) == m.apply(inputs)
        {
          assert Values(names, record) == inputs;
        }
      }
    }
  }

  predicate IsRollup(table: Table, x: Name) {
    table.Find(x).Some? && table.entries[table.Find(x).value].meta.Rollup?
  }

  predicate IsFormula(table: Table, x: Name) {
    table.Find(x).Some? && table.entries[table.Find(x).value].meta.Formula?
  }
}
