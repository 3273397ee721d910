/** The recursive-descent tree builder (utils/filter_logic_parser.py).  Its four mutually
    recursive functions pop one shared token list; the specification functions below thread
    that list instead, and are then characterised by the grammar. */
module FilterParser {
  import opened Prelude
  import opened FilterGrammar

  datatype ParseError =
    | UnexpectedEnd
    | MismatchedParentheses
    | FilterNotFound(id: nat)
    | UnexpectedToken(tok: Token)

  /** What a parse function returns together with the tokens it leaves, or what it raises. */
  datatype Parse<+T> = Done(value: T, rest: seq<Token>) | Raised(error: ParseError)

  predicate StartsWith(toks: seq<Token>, tok: Token) { toks != [] && toks[0] == tok }

  function ParseExpr(toks: seq<Token>, n: nat): (p: Parse<Tree<nat>>)
    ensures p.Done? ==> |p.rest| < |toks| && Within(p.value, n)
    decreases |toks|, 3
  {
    match ParseTerm(toks, n)
    case Raised(e) => Raised(e)
    case Done(t, rest) =>
      match OrLoop([t], rest, n)
      case Raised(e) => Raised(e)
      case Done(ts, rest') => Done(OrNode(ts), rest')
  }

  function OrLoop(acc: seq<Tree<nat>>, toks: seq<Token>, n: nat): (p: Parse<seq<Tree<nat>>>)
    requires acc != [] && AllWithin(acc, n)
    ensures p.Done? ==> |p.rest| <= |toks| && p.value != [] && AllWithin(p.value, n)
    decreases |toks|, 0
  {
    if !StartsWith(toks, Or) then Done(acc, toks)
    else
      match ParseTerm(toks[1..], n)
      case Raised(e) => Raised(e)
      case Done(t, rest) => OrLoop(acc + [t], rest, n)
  }

  function ParseTerm(toks: seq<Token>, n: nat): (p: Parse<Tree<nat>>)
    ensures p.Done? ==> |p.rest| < |toks| && Within(p.value, n)
    decreases |toks|, 2
  {
    match ParseFactor(toks, n)
    case Raised(e) => Raised(e)
    case Done(t, rest) =>
      match AndLoop([t], rest, n)
      case Raised(e) => Raised(e)
      case Done(ts, rest') => Done(AndNode(ts), rest')
  }

  function AndLoop(acc: seq<Tree<nat>>, toks: seq<Token>, n: nat): (p: Parse<seq<Tree<nat>>>)
    requires acc != [] && AllWithin(acc, n)
    ensures p.Done? ==> |p.rest| <= |toks| && p.value != [] && AllWithin(p.value, n)
    decreases |toks|, 0
  {
    if !StartsWith(toks, And) then Done(acc, toks)
    else
      match ParseFactor(toks[1..], n)
      case Raised(e) => Raised(e)
      case Done(t, rest) => AndLoop(acc + [t], rest, n)
  }

  function ParseFactor(toks: seq<Token>, n: nat): (p: Parse<Tree<nat>>)
    ensures p.Done? ==> |p.rest| < |toks| && Within(p.value, n)
    decreases |toks|, 1
  {
    if StartsWith(toks, Not) then
      match ParseFactor(toks[1..], n)
      case Raised(e) => Raised(e)
      case Done(t, rest) => Done(NotT(t), rest)
    else ParseAtom(toks, n)
  }

  function ParseAtom(toks: seq<Token>, n: nat): (p: Parse<Tree<nat>>)
    ensures p.Done? ==> |p.rest| < |toks| && Within(p.value, n)
    decreases |toks|, 0
  {
    if toks == [] then Raised(UnexpectedEnd)
    else
      match toks[0]
      case LParen =>
        (match ParseExpr(toks[1..], n)
         case Raised(e) => Raised(e)
         case Done(t, rest) =>
           if StartsWith(rest, RParen) then Done(t, rest[1..]) else Raised(MismatchedParentheses))
      case Num(id) => if 1 <= id <= n then Done(Leaf(id), toks[1..]) else Raised(FilterNotFound(id))
      case tok => Raised(UnexpectedToken(tok))
  }

  // ----- filter positions and the filters themselves -------------------------------------

  /** Every leaf is the 1-based position of one of `n` filters. */
  ghost predicate Within(t: Tree<nat>, n: nat) {
    match t
    case Leaf(id) => 1 <= id <= n
    case NotT(a) => Within(a, n)
    case AndT(args) => forall i | 0 <= i < |args| :: Within(args[i], n)
    case OrT(args) => forall i | 0 <= i < |args| :: Within(args[i], n)
  }

  ghost predicate AllWithin(ts: seq<Tree<nat>>, n: nat) {
    forall i | 0 <= i < |ts| :: Within(ts[i], n)
  }

  /** The tree with every position replaced by the filter found there. */
  ghost function Resolve<F>(t: Tree<nat>, filters: seq<F>): Tree<F>
    requires Within(t, |filters|)
  {
    match t
    case Leaf(id) => Leaf(filters[id - 1])
    case NotT(a) => NotT(Resolve(a, filters))
    case AndT(args) => AndT(seq(|args|, i requires 0 <= i < |args| => Resolve(args[i], filters)))
    case OrT(args) => OrT(seq(|args|, i requires 0 <= i < |args| => Resolve(args[i], filters)))
  }

  ghost function ResolveAll<F>(ts: seq<Tree<nat>>, filters: seq<F>): (out: seq<Tree<F>>)
    requires AllWithin(ts, |filters|)
    ensures |out| == |ts|
  {
    seq(|ts|, i requires 0 <= i < |ts| => Resolve(ts[i], filters))
  }

  /** `{i + 1: f for i, f in enumerate(filters)}` */
  function FilterMap<F>(filters: seq<F>): (m: map<nat, F>)
    ensures forall id :: id in m <==> 1 <= id <= |filters|
    ensures forall id :: 1 <= id <= |filters| ==> m[id] == filters[id - 1]
  {
    if filters == [] then map[] else FilterMap(filters[..|filters| - 1])[|filters| := filters[|filters| - 1]]
  }

  // ----- the parser itself ---------------------------------------------------------------

  class Builder<F> {
    var tokens: seq<Token>
    const filterMap: map<nat, F>
    ghost const filters: seq<F>

    ghost predicate Valid() {
      && (forall id :: id in filterMap <==> 1 <= id <= |filters|)
      && (forall id :: 1 <= id <= |filters| ==> filterMap[id] == filters[id - 1])
    }

    constructor (toks: seq<Token>, filters: seq<F>)
      ensures Valid() && tokens == toks && this.filters == filters
    {
      tokens := toks;
      filterMap := FilterMap(filters);
      this.filters := filters;
    }

    /** `r` and the tokens now left are what specification `p` says. */
    ghost predicate Agrees(p: Parse<Tree<nat>>, r: Result<Tree<F>, ParseError>)
      requires p.Done? ==> Within(p.value, |filters|)
      reads this
    {
      match p
      case Raised(e) => r == Err(e)
      case Done(t, rest) => r == Ok(Resolve(t, filters)) && tokens == rest
    }

    method Expr() returns (r: Result<Tree<F>, ParseError>)
      requires Valid()
      modifies this`tokens
      ensures Agrees(ParseExpr(old(tokens), |filters|), r)
      decreases |tokens|, 3
    {
      var left := Term();
      if left.Err? {
        return left;
      }
      ghost var first := ParseTerm(old(tokens), |filters|);
      ghost var acc := [first.value];
      var orTerms := [left.value];
      while tokens != [] && tokens[0] == Or
        invariant acc != [] && AllWithin(acc, |filters|) && orTerms == ResolveAll(acc, filters)
        invariant OrLoop(acc, tokens, |filters|) == OrLoop([first.value], first.rest, |filters|)
        invariant |tokens| < |old(tokens)|
        decreases |tokens|
      {
        tokens := tokens[1..];
        ghost var step := ParseTerm(tokens, |filters|);
        var t := Term();
        if t.Err? {
          return t;
        }
        acc := acc + [step.value];
        orTerms := orTerms + [t.value];
      }
      if |orTerms| == 1 {
        return Ok(orTerms[0]);
      }
      return Ok(OrT(orTerms));
    }

    method Term() returns (r: Result<Tree<F>, ParseError>)
      requires Valid()
      modifies this`tokens
      ensures Agrees(ParseTerm(old(tokens), |filters|), r)
      decreases |tokens|, 2
    {
      var left := Factor();
      if left.Err? {
        return left;
      }
      ghost var first := ParseFactor(old(tokens), |filters|);
      ghost var acc := [first.value];
      var andFactors := [left.value];
      while tokens != [] && tokens[0] == And
        invariant acc != [] && AllWithin(acc, |filters|) && andFactors == ResolveAll(acc, filters)
        invariant AndLoop(acc, tokens, |filters|) == AndLoop([first.value], first.rest, |filters|)
        invariant |tokens| < |old(tokens)|
        decreases |tokens|
      {
        tokens := tokens[1..];
        ghost var step := ParseFactor(tokens, |filters|);
        var t := Factor();
        if t.Err? {
          return t;
        }
        acc := acc + [step.value];
        andFactors := andFactors + [t.value];
      }
      if |andFactors| == 1 {
        return Ok(andFactors[0]);
      }
      return Ok(AndT(andFactors));
    }

    method Factor() returns (r: Result<Tree<F>, ParseError>)
      requires Valid()
      modifies this`tokens
      ensures Agrees(ParseFactor(old(tokens), |filters|), r)
      decreases |tokens|, 1
    {
      if tokens != [] && tokens[0] == Not {
        tokens := tokens[1..];
        var arg := Factor();
        if arg.Err? {
          return arg;
        }
        return Ok(NotT(arg.value));
      }
      r := Atom();
    }

    method Atom() returns (r: Result<Tree<F>, ParseError>)
      requires Valid()
      modifies this`tokens
      ensures Agrees(ParseAtom(old(tokens), |filters|), r)
      decreases |tokens|, 0
    {
      if tokens == [] {
        return Err(UnexpectedEnd);
      }
      var token := tokens[0];
      tokens := tokens[1..];
      if token == LParen {
        r := Expr();
        if r.Ok? {
          if tokens == [] || tokens[0] != RParen {
            return Err(MismatchedParentheses);
          }
          tokens := tokens[1..];
        }
        return;
      }
      if token.Num? {
        if token.id !in filterMap {
          return Err(FilterNotFound(token.id));
        }
        return Ok(Leaf(filterMap[token.id]));
      }
      return Err(UnexpectedToken(token));
    }
  }

  /** `build_expression_tree`: tokens after the first expression are silently ignored. */
  method BuildExpressionTree<F>(toks: seq<Token>, filters: seq<F>) returns (r: Result<Tree<F>, ParseError>)
    ensures ParseExpr(toks, |filters|).Raised? ==> r == Err(ParseExpr(toks, |filters|).error)
    ensures ParseExpr(toks, |filters|).Done? ==> r == Ok(Resolve(ParseExpr(toks, |filters|).value, filters))
  {
    var b := new Builder(toks, filters);
    r := b.Expr();
  }

  // ----- the entry point ------------------------------------------------------------------

  /** All positions 1..n. */
  function Positions(n: nat): (ts: seq<Tree<nat>>)
    ensures |ts| == n && forall i | 0 <= i < n :: ts[i] == Leaf(i + 1)
  {
    seq(n, i requires 0 <= i < n => Leaf(i + 1))
  }

  /** Without logic, all filters must hold. */
  function DefaultTree(n: nat): (t: Tree<nat>)
    requires n >= 1
    ensures Within(t, n)
  {
    AndNode(Positions(n))
  }

  /** `convert_to_query_format`; no logic stands for a missing or blank string, no tree for the
      empty dictionary. */
  method ConvertToQueryFormat<F>(filters: seq<F>, logic: Option<seq<Token>>) returns (r: Result<Option<Tree<F>>,
          ParseError>)
    ensures logic == None && filters == [] ==> r == Ok(None)
    ensures logic == None && filters != [] ==> r == Ok(Some(Resolve(DefaultTree(|filters|), filters)))
    ensures logic.Some? && ParseExpr(logic.value, |filters|).Raised? ==>
      r == Err(ParseExpr(logic.value, |filters|).error)
    ensures logic.Some? && ParseExpr(logic.value, |filters|).Done? ==>
      r == Ok(Some(Resolve(ParseExpr(logic.value, |filters|).value, filters)))
  {
    if logic == None {
      if |filters| > 1 {
        var leaves := seq(|filters|, i requires 0 <= i < |filters| => Leaf(filters[i]));
        assert leaves == ResolveAll(Positions(|filters|), filters);
        return Ok(Some(AndT(leaves)));
      }
      return Ok(if filters != [] then Some(Leaf(filters[0])) else None);
    }
    var tree := BuildExpressionTree(logic.value, filters);
    match tree
    case Ok(t) => return Ok(Some(t));
    case Err(e) => return Err(e);
  }

  // ----- completeness: a derivation is parsed to the tree it denotes ---------------------

  lemma {:induction false} ParseExprComplete(e: Expr, tail: seq<Token>, n: nat)
    requires IdsWithin(ExprTokens(e), n) && !StartsWith(tail, Or) && !StartsWith(tail, And)
    ensures ParseExpr(ExprTokens(e) + tail, n) == Done(ExprTree(e), tail)
    decreases e, 3
  {
    match e
    case LastTerm(t) => ParseTermComplete(t, tail, n);
    case OrMore(t, more) =>
      var later := [Or] + ExprTokens(more) + tail;
      assert ExprTokens(e) + tail == TermTokens(t) + later;
      ParseTermComplete(t, later, n);
      OrLoopComplete([TermTree(t)], more, tail, n);
  }

  lemma {:induction false} OrLoopComplete(acc: seq<Tree<nat>>, e: Expr, tail: seq<Token>, n: nat)
    requires acc != [] && AllWithin(acc, n)
    requires IdsWithin(ExprTokens(e), n) && !StartsWith(tail, Or) && !StartsWith(tail, And)
    ensures OrLoop(acc, [Or] + ExprTokens(e) + tail, n) == Done(acc + TermTrees(e), tail)
    decreases e, 3
  {
    var toks := [Or] + ExprTokens(e) + tail;
    match e
    case LastTerm(t) =>
      assert toks[1..] == TermTokens(t) + tail;
      ParseTermComplete(t, tail, n);
    case OrMore(t, more) =>
      var later := [Or] + ExprTokens(more) + tail;
      assert toks[1..] == TermTokens(t) + later;
      ParseTermComplete(t, later, n);
      OrLoopComplete(acc + [TermTree(t)], more, tail, n);
      assert acc + [TermTree(t)] + TermTrees(more) == acc + TermTrees(e);
  }

  lemma {:induction false} ParseTermComplete(t: Term, tail: seq<Token>, n: nat)
    requires IdsWithin(TermTokens(t), n) && !StartsWith(tail, And)
    ensures ParseTerm(TermTokens(t) + tail, n) == Done(TermTree(t), tail)
    decreases t, 2
  {
    match t
    case LastFactor(f) => ParseFactorComplete(f, tail, n);
    case AndMore(f, more) =>
      var later := [And] + TermTokens(more) + tail;
      assert TermTokens(t) + tail == FactorTokens(f) + later;
      ParseFactorComplete(f, later, n);
      AndLoopComplete([FactorTree(f)], more, tail, n);
  }

  lemma {:induction false} AndLoopComplete(acc: seq<Tree<nat>>, t: Term, tail: seq<Token>, n: nat)
    requires acc != [] && AllWithin(acc, n)
    requires IdsWithin(TermTokens(t), n) && !StartsWith(tail, And)
    ensures AndLoop(acc, [And] + TermTokens(t) + tail, n) == Done(acc + FactorTrees(t), tail)
    decreases t, 2
  {
    var toks := [And] + TermTokens(t) + tail;
    match t
    case LastFactor(f) =>
      assert toks[1..] == FactorTokens(f) + tail;
      ParseFactorComplete(f, tail, n);
    case AndMore(f, more) =>
      var later := [And] + TermTokens(more) + tail;
      assert toks[1..] == FactorTokens(f) + later;
      ParseFactorComplete(f, later, n);
      AndLoopComplete(acc + [FactorTree(f)], more, tail, n);
      assert acc + [FactorTree(f)] + FactorTrees(more) == acc + FactorTrees(t);
  }

  lemma {:induction false} ParseFactorComplete(f: Factor, tail: seq<Token>, n: nat)
    requires IdsWithin(FactorTokens(f), n)
    ensures ParseFactor(FactorTokens(f) + tail, n) == Done(FactorTree(f), tail)
    decreases f, 1
  {
    var toks := FactorTokens(f) + tail;
    match f
    case Negation(g) =>
      assert toks[1..] == FactorTokens(g) + tail;
      ParseFactorComplete(g, tail, n);
    case Atom(Number(id)) =>
      assert FactorTokens(f) == [Num(id)];
      assert toks[1..] == tail && toks[0] in FactorTokens(f);
    case Atom(Paren(e)) =>
      assert FactorTokens(f) == [LParen] + ExprTokens(e) + [RParen];
      assert toks[1..] == ExprTokens(e) + ([RParen] + tail);
      ParseExprComplete(e, [RParen] + tail, n);
  }

  // ----- soundness: whatever is parsed was derived ---------------------------------------

  lemma {:induction false} ParseExprSound(toks: seq<Token>, n: nat) returns (e: Expr)
    requires ParseExpr(toks, n).Done?
    ensures ExprTokens(e) + ParseExpr(toks, n).rest == toks
    ensures ExprTree(e) == ParseExpr(toks, n).value && IdsWithin(ExprTokens(e), n)
    ensures !StartsWith(ParseExpr(toks, n).rest, Or) && !StartsWith(ParseExpr(toks, n).rest, And)
    decreases |toks|, 3
  {
    var t := ParseTermSound(toks, n);
    var first := ParseTerm(toks, n);
    if StartsWith(first.rest, Or) {
      var more := OrLoopSound([first.value], first.rest, n);
      e := OrMore(t, more);
    } else {
      e := LastTerm(t);
    }
  }

  lemma {:induction false} OrLoopSound(acc: seq<Tree<nat>>, toks: seq<Token>, n: nat) returns (e: Expr)
    requires acc != [] && AllWithin(acc, n) && StartsWith(toks, Or) && OrLoop(acc, toks, n).Done?
    ensures [Or] + ExprTokens(e) + OrLoop(acc, toks, n).rest == toks
    ensures OrLoop(acc, toks, n).value == acc + TermTrees(e) && IdsWithin(ExprTokens(e), n)
    ensures !StartsWith(OrLoop(acc, toks, n).rest, Or) && !StartsWith(OrLoop(acc, toks, n).rest, And)
    decreases |toks|, 0
  {
    var t := ParseTermSound(toks[1..], n);
    var step := ParseTerm(toks[1..], n);
    if StartsWith(step.rest, Or) {
      var more := OrLoopSound(acc + [step.value], step.rest, n);
      e := OrMore(t, more);
    } else {
      e := LastTerm(t);
    }
  }

  lemma {:induction false} ParseTermSound(toks: seq<Token>, n: nat) returns (t: Term)
    requires ParseTerm(toks, n).Done?
    ensures TermTokens(t) + ParseTerm(toks, n).rest == toks
    ensures TermTree(t) == ParseTerm(toks, n).value && IdsWithin(TermTokens(t), n)
    ensures !StartsWith(ParseTerm(toks, n).rest, And)
    decreases |toks|, 2
  {
    var f := ParseFactorSound(toks, n);
    var first := ParseFactor(toks, n);
    if StartsWith(first.rest, And) {
      var more := AndLoopSound([first.value], first.rest, n);
      t := AndMore(f, more);
    } else {
      t := LastFactor(f);
    }
  }

  lemma {:induction false} AndLoopSound(acc: seq<Tree<nat>>, toks: seq<Token>, n: nat) returns (t: Term)
    requires acc != [] && AllWithin(acc, n) && StartsWith(toks, And) && AndLoop(acc, toks, n).Done?
    ensures [And] + TermTokens(t) + AndLoop(acc, toks, n).rest == toks
    ensures AndLoop(acc, toks, n).value == acc + FactorTrees(t) && IdsWithin(TermTokens(t), n)
    ensures !StartsWith(AndLoop(acc, toks, n).rest, And)
    decreases |toks|, 0
  {
    var f := ParseFactorSound(toks[1..], n);
    var step := ParseFactor(toks[1..], n);
    if StartsWith(step.rest, And) {
      var more := AndLoopSound(acc + [step.value], step.rest, n);
      t := AndMore(f, more);
    } else {
      t := LastFactor(f);
    }
  }

  lemma {:induction false} ParseFactorSound(toks: seq<Token>, n: nat) returns (f: Factor)
    requires ParseFactor(toks, n).Done?
    ensures FactorTokens(f) + ParseFactor(toks, n).rest == toks
    ensures FactorTree(f) == ParseFactor(toks, n).value && IdsWithin(FactorTokens(f), n)
    decreases |toks|, 1
  {
    if StartsWith(toks, Not) {
      var g := ParseFactorSound(toks[1..], n);
      f := Negation(g);
    } else if toks[0] == LParen {
      var e := ParseExprSound(toks[1..], n);
      f := Atom(Paren(e));
      assert FactorTokens(f) == [LParen] + ExprTokens(e) + [RParen];
      assert FactorTree(f) == AtomTree(f.a) == ExprTree(e);
    } else {
      f := Atom(Number(toks[0].id));
    }
  }

  // ----- what is raised -------------------------------------------------------------------

  /** The error is the case at position `i`, for `n` filters. */
  predicate Occurs(toks: seq<Token>, n: nat, i: nat, error: ParseError)
    requires i <= |toks|
  {
    var next := if i == |toks| then None else Some(toks[i]);
    match error
    case UnexpectedEnd => Expecting(toks, i) && next == None
    case MismatchedParentheses => Completed(toks, i) && next !in [Some(RParen), Some(And), Some(Or)]
    case FilterNotFound(id) => Expecting(toks, i) && next == Some(Num(id)) && !(1 <= id <= n)
    case UnexpectedToken(tok) => Expecting(toks, i) && next == Some(tok) && tok in [And, Or, RParen]
  }

  /** The outcome of a parse function that has read up to position `i`. */
  ghost predicate Traced<T>(toks: seq<Token>, n: nat, p: Parse<T>, more: seq<Token>) {
    match p
    case Raised(e) => exists i :: 0 <= i <= |toks| && Occurs(toks, n, i, e)
    case Done(_, rest) =>
      && |rest| <= |toks| && rest == toks[|toks| - |rest|..] && Completed(toks, |toks| - |rest|)
      && forall tok | tok in more :: !StartsWith(rest, tok)
  }

  lemma {:induction false} ExprTraced(toks: seq<Token>, n: nat, i: nat)
    requires i <= |toks| && Expecting(toks, i)
    ensures Traced(toks, n, ParseExpr(toks[i..], n), [Or, And])
    decreases |toks| - i, 3
  {
    hide ParseTerm, OrLoop, Occurs, Within;
    TermTraced(toks, n, i);
    var first := ParseTerm(toks[i..], n);
    if first.Done? {
      OrLoopTraced(toks, n, [first.value], |toks| - |first.rest|);
    }
  }

  lemma {:induction false} OrLoopTraced(toks: seq<Token>, n: nat, acc: seq<Tree<nat>>, i: nat)
    requires acc != [] && AllWithin(acc, n)
    requires i <= |toks| && Completed(toks, i) && !StartsWith(toks[i..], And)
    ensures Traced(toks, n, OrLoop(acc, toks[i..], n), [Or, And])
    decreases |toks| - i, 0
  {
    hide ParseTerm, Occurs, Within;
    if StartsWith(toks[i..], Or) {
      assert toks[i..][1..] == toks[i + 1..];
      TermTraced(toks, n, i + 1);
      var step := ParseTerm(toks[i + 1..], n);
      if step.Done? {
        OrLoopTraced(toks, n, acc + [step.value], |toks| - |step.rest|);
      }
    }
  }

  lemma {:induction false} TermTraced(toks: seq<Token>, n: nat, i: nat)
    requires i <= |toks| && Expecting(toks, i)
    ensures Traced(toks, n, ParseTerm(toks[i..], n), [And])
    decreases |toks| - i, 2
  {
    hide ParseFactor, AndLoop, Occurs, Within;
    FactorTraced(toks, n, i);
    var first := ParseFactor(toks[i..], n);
    if first.Done? {
      AndLoopTraced(toks, n, [first.value], |toks| - |first.rest|);
    }
  }

  lemma {:induction false} AndLoopTraced(toks: seq<Token>, n: nat, acc: seq<Tree<nat>>, i: nat)
    requires acc != [] && AllWithin(acc, n) && i <= |toks| && Completed(toks, i)
    ensures Traced(toks, n, AndLoop(acc, toks[i..], n), [And])
    decreases |toks| - i, 0
  {
    hide ParseFactor, Occurs, Within;
    if StartsWith(toks[i..], And) {
      assert toks[i..][1..] == toks[i + 1..];
      FactorTraced(toks, n, i + 1);
      var step := ParseFactor(toks[i + 1..], n);
      if step.Done? {
        AndLoopTraced(toks, n, acc + [step.value], |toks| - |step.rest|);
      }
    }
  }

  lemma {:induction false} FactorTraced(toks: seq<Token>, n: nat, i: nat)
    requires i <= |toks| && Expecting(toks, i)
    ensures Traced(toks, n, ParseFactor(toks[i..], n), [])
    decreases |toks| - i, 1
  {
    if StartsWith(toks[i..], Not) {
      assert toks[i..][1..] == toks[i + 1..];
      FactorTraced(toks, n, i + 1);
    } else {
      AtomTraced(toks, n, i);
    }
  }

  lemma {:induction false} AtomTraced(toks: seq<Token>, n: nat, i: nat)
    requires i <= |toks| && Expecting(toks, i) && !StartsWith(toks[i..], Not)
    ensures Traced(toks, n, ParseAtom(toks[i..], n), [])
    decreases |toks| - i, 0
  {
    hide Within, Occurs, ParseExpr;
    AtomRaises(toks, n, i);
    if i < |toks| {
      assert toks[i..][1..] == toks[i + 1..];
      if toks[i] == LParen {
        ExprTraced(toks, n, i + 1);
        var inner := ParseExpr(toks[i + 1..], n);
        if inner.Done? {
          ParenthesisTraced(toks, n, |toks| - |inner.rest|);
        }
      }
    }
  }

  /** What is raised where an operand is expected. */
  lemma AtomRaises(toks: seq<Token>, n: nat, i: nat)
    requires i <= |toks| && Expecting(toks, i) && !StartsWith(toks[i..], Not)
    ensures i == |toks| ==> Occurs(toks, n, i, UnexpectedEnd)
    ensures i < |toks| && toks[i].Num? && !(1 <= toks[i].id <= n) ==> Occurs(toks, n, i, FilterNotFound(toks[i].id))
    ensures i < |toks| && !toks[i].Num? && toks[i] != LParen ==> Occurs(toks, n, i, UnexpectedToken(toks[i]))
  {
  }

  /** A completed expression that neither AND nor OR continues is closed, or not. */
  lemma ParenthesisTraced(toks: seq<Token>, n: nat, j: nat)
    requires j <= |toks| && Completed(toks, j)
    ensures StartsWith(toks[j..], RParen) ==> toks[j..][1..] == toks[j + 1..]
    ensures !StartsWith(toks[j..], RParen) && !StartsWith(toks[j..], And) && !StartsWith(toks[j..], Or)
      ==> Occurs(toks, n, j, MismatchedParentheses)
  {
  }

  /** Whatever the builder raises is the case somewhere in the token list. */
  lemma RaisedErrorOccurs(toks: seq<Token>, n: nat)
    requires ParseExpr(toks, n).Raised?
    ensures exists i :: 0 <= i <= |toks| && Occurs(toks, n, i, ParseExpr(toks, n).error)
  {
    assert toks[0..] == toks;
    ExprTraced(toks, n, 0);
  }

  /** Identifiers still unread are among those that were there before. */
  lemma RestIsSuffix(toks: seq<Token>, n: nat)
    requires IdsWithin(toks, n)
    ensures ParseTerm(toks, n).Done? ==> IdsWithin(ParseTerm(toks, n).rest, n)
    ensures ParseFactor(toks, n).Done? ==> IdsWithin(ParseFactor(toks, n).rest, n)
  {
    if ParseTerm(toks, n).Done? {
      var t := ParseTermSound(toks, n);
    }
    if ParseFactor(toks, n).Done? {
      var f := ParseFactorSound(toks, n);
    }
  }

  // ----- main results --------------------------------------------------------------------

  /** The builder succeeds exactly on the token lists that begin with a derivable expression
      over existing filters which no AND or OR continues, and then yields that expression's tree. */
  lemma BuilderCharacterised(toks: seq<Token>, n: nat)
    ensures ParseExpr(toks, n).Done? <==>
      (exists e, tail :: ExprTokens(e) + tail == toks && IdsWithin(ExprTokens(e), n)
        && !StartsWith(tail, Or) && !StartsWith(tail, And))
    ensures forall e, tail | ExprTokens(e) + tail == toks && IdsWithin(ExprTokens(e), n)
        && !StartsWith(tail, Or) && !StartsWith(tail, And) :: ParseExpr(toks, n) == Done(ExprTree(e), tail)
  {
    if ParseExpr(toks, n).Done? {
      var e := ParseExprSound(toks, n);
      assert ExprTokens(e) + ParseExpr(toks, n).rest == toks;
    }
    forall e, tail | ExprTokens(e) + tail == toks && IdsWithin(ExprTokens(e), n)
        && !StartsWith(tail, Or) && !StartsWith(tail, And)
      ensures ParseExpr(toks, n) == Done(ExprTree(e), tail)
    {
      ParseExprComplete(e, tail, n);
    }
  }

  /** A whole sentence over existing filters raises nothing and leaves no token behind. */
  lemma SentenceConsumed(toks: seq<Token>, n: nat)
    ensures Sentence(toks) && IdsWithin(toks, n) <==> ParseExpr(toks, n).Done? && ParseExpr(toks, n).rest == []
  {
    if Sentence(toks) && IdsWithin(toks, n) {
      var e :| ExprTokens(e) == toks;
      assert toks + [] == toks;
      ParseExprComplete(e, [], n);
    }
    if ParseExpr(toks, n).Done? && ParseExpr(toks, n).rest == [] {
      var e := ParseExprSound(toks, n);
      assert ExprTokens(e) + [] == ExprTokens(e);
    }
  }

  // ----- unambiguity, whatever the numbers -------------------------------------------------

  /** What follows the first term, and the first factor. */
  function AfterTerm(e: Expr, t: seq<Token>): seq<Token> {
    if e.OrMore? then [Or] + (ExprTokens(e.more) + t) else t
  }

  function AfterFactor(a: Term, t: seq<Token>): seq<Token> {
    if a.AndMore? then [And] + (TermTokens(a.more) + t) else t
  }

  lemma FirstTerm(e: Expr, t: seq<Token>)
    ensures ExprTokens(e) + t == TermTokens(e.t) + AfterTerm(e, t)
  {
    hide TermTokens;
  }

  lemma FirstFactor(a: Term, t: seq<Token>)
    ensures TermTokens(a) + t == FactorTokens(a.f) + AfterFactor(a, t)
  {
    hide FactorTokens;
  }

  lemma {:induction false} SameExpr(e1: Expr, e2: Expr, t1: seq<Token>, t2: seq<Token>)
    requires ExprTokens(e1) + t1 == ExprTokens(e2) + t2
    requires !StartsWith(t1, Or) && !StartsWith(t1, And) && !StartsWith(t2, Or) && !StartsWith(t2, And)
    ensures e1 == e2 && t1 == t2
    decreases e1, 3
  {
    hide ExprTokens, TermTokens;
    FirstTerm(e1, t1);
    FirstTerm(e2, t2);
    SameTerm(e1.t, e2.t, AfterTerm(e1, t1), AfterTerm(e2, t2));
    if e1.OrMore? && e2.OrMore? {
      assert AfterTerm(e1, t1)[1..] == ExprTokens(e1.more) + t1 && AfterTerm(e2, t2)[1..] == ExprTokens(e2.more) + t2;
      SameExpr(e1.more, e2.more, t1, t2);
    }
  }

  lemma {:induction false} SameTerm(a: Term, b: Term, t1: seq<Token>, t2: seq<Token>)
    requires TermTokens(a) + t1 == TermTokens(b) + t2 && !StartsWith(t1, And) && !StartsWith(t2, And)
    ensures a == b && t1 == t2
    decreases a, 2
  {
    hide TermTokens, FactorTokens;
    FirstFactor(a, t1);
    FirstFactor(b, t2);
    SameFactor(a.f, b.f, AfterFactor(a, t1), AfterFactor(b, t2));
    if a.AndMore? && b.AndMore? {
      assert AfterFactor(a, t1)[1..] == TermTokens(a.more) + t1 && AfterFactor(b, t2)[1..] == TermTokens(b.more) + t2;
      SameTerm(a.more, b.more, t1, t2);
    }
  }

  lemma {:induction false} SameFactor(a: Factor, b: Factor, t1: seq<Token>, t2: seq<Token>)
    requires FactorTokens(a) + t1 == FactorTokens(b) + t2
    ensures a == b && t1 == t2
    decreases a, 1
  {
    var s := FactorTokens(a) + t1;
    FirstToken(a, t1);
    FirstToken(b, t2);
    match a
    case Negation(g) =>
      assert s[1..] == FactorTokens(g) + t1 && s[1..] == FactorTokens(b.f) + t2;
      SameFactor(g, b.f, t1, t2);
    case Atom(Number(id)) =>
      assert s[1..] == t1 && s[1..] == t2;
    case Atom(Paren(e)) =>
      assert s[1..] == ExprTokens(e) + ([RParen] + t1) && s[1..] == ExprTokens(b.a.e) + ([RParen] + t2);
      SameExpr(e, b.a.e, [RParen] + t1, [RParen] + t2);
      assert ([RParen] + t1)[1..] == t1 && ([RParen] + t2)[1..] == t2;
  }

  /** The first token tells the three kinds of factor apart. */
  function Head(a: Factor): Token {
    match a
    case Negation(_) => Not
    case Atom(Number(id)) => Num(id)
    case Atom(Paren(_)) => LParen
  }

  lemma FirstToken(a: Factor, t: seq<Token>)
    ensures FactorTokens(a) != [] && (FactorTokens(a) + t)[0] == Head(a)
  {
  }

  /** The grammar is unambiguous: one token list has one derivation, so it denotes one tree. */
  lemma Unambiguous(e1: Expr, e2: Expr)
    requires ExprTokens(e1) == ExprTokens(e2)
    ensures e1 == e2
  {
    assert ExprTokens(e1) + [] == ExprTokens(e2) + [];
    SameExpr(e1, e2, [], []);
  }

  lemma {:induction false} ExprIds(e: Expr, n: nat)
    requires AllWithin(TermTrees(e), n)
    ensures IdsWithin(ExprTokens(e), n)
    decreases e
  {
    match e
    case LastTerm(t) =>
      assert Within(TermTrees(e)[0], n);
      TermIds(t, n);
    case OrMore(t, more) =>
      assert Within(TermTrees(e)[0], n);
      assert forall i | 0 <= i < |TermTrees(more)| :: TermTrees(more)[i] == TermTrees(e)[i + 1];
      TermIds(t, n);
      ExprIds(more, n);
  }

  lemma ChainWithin(args: seq<Tree<nat>>, n: nat)
    requires args != [] && Within(AndNode(args), n)
    ensures AllWithin(args, n)
  {
  }

  lemma {:induction false} TermIds(t: Term, n: nat)
    requires Within(TermTree(t), n)
    ensures IdsWithin(TermTokens(t), n)
    decreases t
  {
    hide FactorTree, FactorTokens;
    ChainWithin(FactorTrees(t), n);
    match t
    case LastFactor(f) => FactorIds(f, n);
    case AndMore(f, more) =>
      assert Within(FactorTrees(t)[0], n);
      assert forall i | 0 <= i < |FactorTrees(more)| :: FactorTrees(more)[i] == FactorTrees(t)[i + 1];
      FactorIds(f, n);
      TermIds(more, n);
  }

  lemma {:induction false} FactorIds(f: Factor, n: nat)
    requires Within(FactorTree(f), n)
    ensures IdsWithin(FactorTokens(f), n)
    decreases f
  {
    match f
    case Negation(g) => FactorIds(g, n);
    case Atom(Number(id)) => assert FactorTokens(f) == [Num(id)] && FactorTree(f) == AtomTree(f.a) == Leaf(id);
    case Atom(Paren(e)) =>
      assert FactorTree(f) == ExprTree(e) && FactorTokens(f) == [LParen] + ExprTokens(e) + [RParen];
      ExprIds(e, n);
  }

  /** Printing a tree and parsing the result gives the tree back, with each position resolved. */
  lemma PrintThenParse(t: Tree<nat>, n: nat)
    requires Emitted(t) && Within(t, n)
    ensures ParseExpr(PrintTree(t), n) == Done(t, [])
  {
    var e := PrintedExpr(t);
    ExprIds(e, n);
    assert ExprTokens(e) + [] == PrintTree(t);
    ParseExprComplete(e, [], n);
  }

  /** The default is what the logic `1 AND 2 AND ... AND n` would have given. */
  lemma DefaultIsConjunction(n: nat)
    requires n >= 1
    ensures ParseExpr(PrintTree(DefaultTree(n)), n) == Done(DefaultTree(n), [])
  {
    PrintThenParse(DefaultTree(n), n);
  }
}
