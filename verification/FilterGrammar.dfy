/** The filter-logic language, e.g. `1 AND (2 OR NOT 3)`, at token level: what a sentence is,
    which tree it denotes, and how a tree is written down again.
    Grammar (utils/filter_logic_parser.py:47-51):
      expr := term (OR term)*   term := factor (AND factor)*
      factor := NOT factor | atom   atom := NUMBER | '(' expr ')' */
module FilterGrammar {

  datatype Token = Num(id: nat) | And | Or | Not | LParen | RParen

  /** The nested dictionaries handed to the query builder. */
  datatype Tree<F> =
    | Leaf(filter: F)
    | NotT(arg: Tree<F>)
    | AndT(args: seq<Tree<F>>)
    | OrT(args: seq<Tree<F>>)

  // ----- derivations ---------------------------------------------------------------------

  datatype Expr = LastTerm(t: Term) | OrMore(t: Term, more: Expr)
  datatype Term = LastFactor(f: Factor) | AndMore(f: Factor, more: Term)
  datatype Factor = Negation(f: Factor) | Atom(a: Atomic)
  datatype Atomic = Number(id: nat) | Paren(e: Expr)

  function ExprTokens(e: Expr): seq<Token> {
    match e
    case LastTerm(t) => TermTokens(t)
    case OrMore(t, more) => TermTokens(t) + [Or] + ExprTokens(more)
  }

  function TermTokens(t: Term): seq<Token> {
    match t
    case LastFactor(f) => FactorTokens(f)
    case AndMore(f, more) => FactorTokens(f) + [And] + TermTokens(more)
  }

  function FactorTokens(f: Factor): seq<Token> {
    match f
    case Negation(g) => [Not] + FactorTokens(g)
    case Atom(a) => AtomTokens(a)
  }

  function AtomTokens(a: Atomic): seq<Token> {
    match a
    case Number(id) => [Num(id)]
    case Paren(e) => [LParen] + ExprTokens(e) + [RParen]
  }

  ghost predicate Sentence(toks: seq<Token>) {
    exists e :: ExprTokens(e) == toks
  }

  /** Every identifier among the tokens is the 1-based position of one of `n` filters. */
  ghost predicate IdsWithin(toks: seq<Token>, n: nat) {
    forall id: nat :: Num(id) in toks ==> 1 <= id <= n
  }

  /** An operand is expected at position `i`, or one has just been completed there. */
  predicate Expecting(toks: seq<Token>, i: nat)
    requires i <= |toks|
  {
    i == 0 || toks[i - 1] in [LParen, And, Or, Not]
  }

  predicate Completed(toks: seq<Token>, i: nat)
    requires i <= |toks|
  {
    i > 0 && (toks[i - 1].Num? || toks[i - 1] == RParen)
  }

  // ----- the tree a derivation denotes ---------------------------------------------------

  function OrNode<F>(args: seq<Tree<F>>): Tree<F>
    requires args != []
  {
    if |args| == 1 then args[0] else OrT(args)
  }

  function AndNode<F>(args: seq<Tree<F>>): Tree<F>
    requires args != []
  {
    if |args| == 1 then args[0] else AndT(args)
  }

  /** The tree over filter identifiers: chains are flattened, a chain of one disappears. */
  function ExprTree(e: Expr): Tree<nat>
    decreases e, 1
  {
    OrNode(TermTrees(e))
  }

  function TermTrees(e: Expr): (ts: seq<Tree<nat>>)
    ensures ts != []
    decreases e, 0
  {
    match e
    case LastTerm(t) => [TermTree(t)]
    case OrMore(t, more) => [TermTree(t)] + TermTrees(more)
  }

  function TermTree(t: Term): Tree<nat>
    decreases t, 1
  {
    AndNode(FactorTrees(t))
  }

  function FactorTrees(t: Term): (ts: seq<Tree<nat>>)
    ensures ts != []
    decreases t, 0
  {
    match t
    case LastFactor(f) => [FactorTree(f)]
    case AndMore(f, more) => [FactorTree(f)] + FactorTrees(more)
  }

  function FactorTree(f: Factor): Tree<nat> {
    match f
    case Negation(g) => NotT(FactorTree(g))
    case Atom(a) => AtomTree(a)
  }

  function AtomTree(a: Atomic): Tree<nat> {
    match a
    case Number(id) => Leaf(id)
    case Paren(e) => ExprTree(e)
  }

  // ----- writing a tree down -------------------------------------------------------------

  /** The shape of every tree the parser can emit: no `and`/`or` node with fewer than two members. */
  ghost predicate Emitted<F>(t: Tree<F>) {
    match t
    case Leaf(_) => true
    case NotT(a) => Emitted(a)
    case AndT(args) => |args| >= 2 && forall i | 0 <= i < |args| :: Emitted(args[i])
    case OrT(args) => |args| >= 2 && forall i | 0 <= i < |args| :: Emitted(args[i])
  }

  /** The tree as an expression: parentheses only where the grammar needs them. */
  function PrintTree(t: Tree<nat>): seq<Token>
    decreases t, 2
  {
    if t.OrT? then PrintJoined(t.args, Or, t) else PrintTerm(t)
  }

  /** The tree as one operand of OR: an `or` node is put in parentheses. */
  function PrintTerm(t: Tree<nat>): seq<Token>
    decreases t, 1
  {
    if t.AndT? then PrintJoined(t.args, And, t) else PrintFactor(t)
  }

  /** The tree as one operand of AND or NOT: `and` and `or` nodes are put in parentheses. */
  function PrintFactor(t: Tree<nat>): seq<Token>
    decreases t, 0
  {
    match t
    case Leaf(id) => [Num(id)]
    case NotT(a) => [Not] + PrintFactor(a)
    case AndT(args) => [LParen] + PrintJoined(args, And, t) + [RParen]
    case OrT(args) => [LParen] + PrintJoined(args, Or, t) + [RParen]
  }

  /** Operands separated by `sep`; operands of OR are printed as terms, of AND as factors. */
  function PrintJoined(args: seq<Tree<nat>>, sep: Token, ghost parent: Tree<nat>): seq<Token>
    requires forall i | 0 <= i < |args| :: args[i] < parent
    decreases parent, 0, |args|
  {
    if args == [] then []
    else
      var head := if sep == Or then PrintTerm(args[0]) else PrintFactor(args[0]);
      if |args| == 1 then head else head + [sep] + PrintJoined(args[1..], sep, parent)
  }

  // ----- every emitted tree is denoted by the expression it is printed as ----------------

  lemma {:induction false} PrintedExpr(t: Tree<nat>) returns (e: Expr)
    requires Emitted(t)
    ensures ExprTokens(e) == PrintTree(t) && ExprTree(e) == t
    decreases t, 2
  {
    if t.OrT? {
      e := PrintedOr(t.args, t);
    } else {
      var x := PrintedTerm(t);
      e := LastTerm(x);
    }
  }

  lemma {:induction false} PrintedTerm(t: Tree<nat>) returns (x: Term)
    requires Emitted(t)
    ensures TermTokens(x) == PrintTerm(t) && TermTree(x) == t
    decreases t, 1
  {
    if t.AndT? {
      x := PrintedAnd(t.args, t);
    } else {
      var f := PrintedFactor(t);
      x := LastFactor(f);
    }
  }

  lemma {:induction false} PrintedFactor(t: Tree<nat>) returns (f: Factor)
    requires Emitted(t)
    ensures FactorTokens(f) == PrintFactor(t) && FactorTree(f) == t
    decreases t, 0
  {
    match t
    case Leaf(id) => f := Atom(Number(id));
    case NotT(a) =>
      var g := PrintedFactor(a);
      f := Negation(g);
    case AndT(args) =>
      var x := PrintedAnd(args, t);
      f := Atom(Paren(LastTerm(x)));
      assert ExprTokens(LastTerm(x)) == TermTokens(x) && ExprTree(LastTerm(x)) == TermTree(x);
      assert AtomTokens(f.a) == PrintFactor(t) && AtomTree(f.a) == t;
    case OrT(args) =>
      var e := PrintedOr(args, t);
      f := Atom(Paren(e));
      assert AtomTokens(f.a) == PrintFactor(t) && AtomTree(f.a) == t;
  }

  lemma {:induction false} PrintedOr(args: seq<Tree<nat>>, parent: Tree<nat>) returns (e: Expr)
    requires args != [] && forall i | 0 <= i < |args| :: args[i] < parent && Emitted(args[i])
    ensures ExprTokens(e) == PrintJoined(args, Or, parent) && TermTrees(e) == args
    decreases parent, 0, |args|
  {
    var x := PrintedTerm(args[0]);
    if |args| == 1 {
      e := LastTerm(x);
    } else {
      var more := PrintedOr(args[1..], parent);
      e := OrMore(x, more);
    }
  }

  lemma {:induction false} PrintedAnd(args: seq<Tree<nat>>, parent: Tree<nat>) returns (x: Term)
    requires args != [] && forall i | 0 <= i < |args| :: args[i] < parent && Emitted(args[i])
    ensures TermTokens(x) == PrintJoined(args, And, parent) && FactorTrees(x) == args
    decreases parent, 0, |args|
  {
    var f := PrintedFactor(args[0]);
    if |args| == 1 {
      x := LastFactor(f);
    } else {
      var more := PrintedAnd(args[1..], parent);
      x := AndMore(f, more);
    }
  }

  // ----- and every denoted tree is emitted -----------------------------------------------

  lemma {:induction false} DenotedExprEmitted(e: Expr)
    ensures Emitted(ExprTree(e)) && forall i | 0 <= i < |TermTrees(e)| :: Emitted(TermTrees(e)[i])
    decreases e
  {
    match e
    case LastTerm(t) => DenotedTermEmitted(t);
    case OrMore(t, more) =>
      DenotedTermEmitted(t);
      DenotedExprEmitted(more);
  }

  lemma {:induction false} DenotedTermEmitted(t: Term)
    ensures Emitted(TermTree(t)) && forall i | 0 <= i < |FactorTrees(t)| :: Emitted(FactorTrees(t)[i])
    decreases t
  {
    match t
    case LastFactor(f) => DenotedFactorEmitted(f);
    case AndMore(f, more) =>
      DenotedFactorEmitted(f);
      DenotedTermEmitted(more);
  }

  lemma {:induction false} DenotedFactorEmitted(f: Factor)
    ensures Emitted(FactorTree(f))
    decreases f
  {
    match f
    case Negation(g) => DenotedFactorEmitted(g);
    case Atom(Number(_)) =>
    case Atom(Paren(e)) => DenotedExprEmitted(e);
  }
}
