/** The token stages of the filter-logic validator (utils/filter_logic_validator.py): token
    checks, parenthesis balance, identifier range and its own recursive descent.  Main result:
    together they accept exactly the grammar's sentences over the filters 1..n. */
module FilterValidator {
  import opened Prelude
  import opened FilterGrammar
  import Parser = FilterParser

  datatype Issue =
    | EmptyExpression
    | StartsWithOperator(tok: Token)
    | EndsWithOperator(tok: Token)
    | UnmatchedClosing
    | UnmatchedOpening(missing: nat)
    | InvalidIds(ids: set<nat>)
    | OrWithoutOperand
    | AndWithoutOperand
    | NotWithoutOperand
    | UnexpectedEnd
    | MissingClosing
    | ExpectedOperand(tok: Token)
    | TrailingTokens(toks: seq<Token>)

  datatype Remark = DoubleNegation | UnusedFilters(ids: set<nat>)

  datatype Report = Report(
    valid: bool, errors: seq<Issue>, warnings: seq<Remark>, referenced: set<nat>, unreferenced: set<nat>)

  predicate StartsWith(toks: seq<Token>, tok: Token) { Parser.StartsWith(toks, tok) }

  // ----- the validator's own descent: it yields the tokens left, or what it raises --------

  function CheckExpr(toks: seq<Token>): (r: Result<seq<Token>, Issue>)
    ensures r.Ok? ==> |r.value| < |toks|
    decreases |toks|, 3
  {
    match CheckTerm(toks)
    case Err(e) => Err(e)
    case Ok(rest) => CheckOrs(rest)
  }

  function CheckOrs(toks: seq<Token>): (r: Result<seq<Token>, Issue>)
    ensures r.Ok? ==> |r.value| <= |toks|
    decreases |toks|, 0
  {
    if !StartsWith(toks, Or) then Ok(toks)
    else if |toks| == 1 || toks[1] in [And, Or, RParen] then Err(OrWithoutOperand)
    else
      match CheckTerm(toks[1..])
      case Err(e) => Err(e)
      case Ok(rest) => CheckOrs(rest)
  }

  function CheckTerm(toks: seq<Token>): (r: Result<seq<Token>, Issue>)
    ensures r.Ok? ==> |r.value| < |toks|
    decreases |toks|, 2
  {
    match CheckFactor(toks)
    case Err(e) => Err(e)
    case Ok(rest) => CheckAnds(rest)
  }

  function CheckAnds(toks: seq<Token>): (r: Result<seq<Token>, Issue>)
    ensures r.Ok? ==> |r.value| <= |toks|
    decreases |toks|, 0
  {
    if !StartsWith(toks, And) then Ok(toks)
    else if |toks| == 1 || toks[1] in [And, Or, RParen] then Err(AndWithoutOperand)
    else
      match CheckFactor(toks[1..])
      case Err(e) => Err(e)
      case Ok(rest) => CheckAnds(rest)
  }

  function CheckFactor(toks: seq<Token>): (r: Result<seq<Token>, Issue>)
    ensures r.Ok? ==> |r.value| < |toks|
    decreases |toks|, 1
  {
    if StartsWith(toks, Not) then
      if |toks| == 1 || toks[1] in [And, Or] then Err(NotWithoutOperand) else CheckFactor(toks[1..])
    else CheckAtom(toks)
  }

  function CheckAtom(toks: seq<Token>): (r: Result<seq<Token>, Issue>)
    ensures r.Ok? ==> |r.value| < |toks|
    decreases |toks|, 0
  {
    if toks == [] then Err(UnexpectedEnd)
    else if toks[0] == LParen then
      match CheckExpr(toks[1..])
      case Err(e) => Err(e)
      case Ok(rest) => if StartsWith(rest, RParen) then Ok(rest[1..]) else Err(MissingClosing)
    else if toks[0].Num? then Ok(toks[1..])
    else Err(ExpectedOperand(toks[0]))
  }

  // ----- the checks that run before it ----------------------------------------------------

  predicate Binary(tok: Token) { tok == And || tok == Or }

  /** Balance after reading `toks` from `balance`, or None as soon as it drops below zero. */
  function Balance(toks: seq<Token>, balance: nat): Option<nat> {
    if toks == [] then Some(balance)
    else if toks[0] == LParen then Balance(toks[1..], balance + 1)
    else if toks[0] == RParen then if balance == 0 then None else Balance(toks[1..], balance - 1)
    else Balance(toks[1..], balance)
  }

  function DoubleNegations(toks: seq<Token>): seq<Remark> {
    if |toks| < 2 then []
    else (if toks[0] == Not && toks[1] == Not then [DoubleNegation] else []) + DoubleNegations(toks[1..])
  }

  predicate DoubleNot(toks: seq<Token>, i: nat) {
    i + 1 < |toks| && toks[i] == Not && toks[i + 1] == Not
  }

  lemma DoubleNegationsAt(toks: seq<Token>, i: nat)
    requires i < |toks|
    ensures i + 1 == |toks| ==> DoubleNegations(toks[i..]) == [] == DoubleNegations(toks[i + 1..])
    ensures DoubleNegations(toks[i..]) ==
      if i + 1 < |toks| && toks[i] == Not && toks[i + 1] == Not then [DoubleNegation] + DoubleNegations(toks[i + 1..])
      else DoubleNegations(toks[i + 1..])
  {
    assert toks[i..][1..] == toks[i + 1..];
  }

  function ReferencedIds(toks: seq<Token>): (ids: set<nat>)
    ensures forall id :: id in ids <==> Num(id) in toks
  {
    if toks == [] then {}
    else (if toks[0].Num? then {toks[0].id} else {}) + ReferencedIds(toks[1..])
  }

  /** `set(range(1, n + 1))` */
  function ValidIds(n: nat): (ids: set<nat>)
    ensures forall id :: id in ids <==> 1 <= id <= n
  {
    if n == 0 then {} else ValidIds(n - 1) + {n}
  }

  /** The issue at either end of the token list. */
  function EndIssues(toks: seq<Token>): seq<Issue> {
    if toks == [] then [EmptyExpression]
    else if Binary(toks[0]) then [StartsWithOperator(toks[0])]
    else if Binary(toks[|toks| - 1]) then [EndsWithOperator(toks[|toks| - 1])]
    else []
  }

  function BalanceIssues(toks: seq<Token>): seq<Issue> {
    match Balance(toks, 0)
    case None => [UnmatchedClosing]
    case Some(balance) => if balance > 0 then [UnmatchedOpening(balance)] else []
  }

  function StructureIssues(toks: seq<Token>): seq<Issue> {
    match CheckExpr(toks)
    case Err(e) => [e]
    case Ok(rest) => if rest == [] then [] else [TrailingTokens(rest)]
  }

  class Validator {
    const totalFilters: nat
    const validIds: set<nat>
    var errors: seq<Issue>
    var warnings: seq<Remark>
    var tokens: seq<Token>   // the copy that the recursive descent pops

    constructor (totalFilters: nat)
      ensures this.totalFilters == totalFilters && validIds == ValidIds(totalFilters)
      ensures errors == [] && warnings == []
    {
      this.totalFilters := totalFilters;
      validIds := ValidIds(totalFilters);
      errors, warnings, tokens := [], [], [];
    }

    method Fail(issue: Issue)
      modifies this`errors
      ensures errors == old(errors) + [issue]
    {
      errors := errors + [issue];
    }

    method ValidateTokens(toks: seq<Token>) returns (ok: bool)
      modifies this`errors, this`warnings
      ensures ok <==> toks != [] && toks[0] !in [And, Or] && toks[|toks| - 1] !in [And, Or]
      ensures errors == old(errors) +
        if ok then []
        else if toks == [] then [EmptyExpression]
        else if toks[0] in [And, Or] then [StartsWithOperator(toks[0])]
        else [EndsWithOperator(toks[|toks| - 1])]
      ensures warnings == old(warnings) + if toks == [] || toks[0] in [And, Or] then [] else DoubleNegations(toks)
      ensures ok <==> EndIssues(toks) == []
      ensures errors == old(errors) + EndIssues(toks)
    {
      hide DoubleNegations, DoubleNot;
      if toks == [] {
        Fail(EmptyExpression);
        return false;
      }
      assert toks[0..] == toks;
      for i := 0 to |toks|
        invariant errors == old(errors)
        invariant if i == 0 then warnings == old(warnings) else !Binary(toks[0])
        invariant i == |toks| ==> !Binary(toks[|toks| - 1])
        invariant warnings + DoubleNegations(toks[i..]) == old(warnings) + DoubleNegations(toks)
      {
        DoubleNegationsAt(toks, i);
        if Binary(toks[i]) {
          if i == 0 {
            Fail(StartsWithOperator(toks[i]));
            return false;
          }
          if i == |toks| - 1 {
            assert warnings + [] == warnings;
            Fail(EndsWithOperator(toks[i]));
            return false;
          }
        }
        if toks[i] == Not && i + 1 < |toks| && toks[i + 1] == Not {
          Assoc(warnings, [DoubleNegation], DoubleNegations(toks[i + 1..]));
          warnings := warnings + [DoubleNegation];
        }
      }
      DoubleNegationsAt(toks, |toks| - 1);
      assert toks[|toks|..] == [] && warnings + [] == warnings;
      return true;
    }

    method CheckParenthesesBalance(toks: seq<Token>) returns (ok: bool)
      modifies this`errors
      ensures ok <==> Balance(toks, 0) == Some(0)
      ensures Balance(toks, 0) == None ==> errors == old(errors) + [UnmatchedClosing]
      ensures forall n | n > 0 && Balance(toks, 0) == Some(n) :: errors == old(errors) + [UnmatchedOpening(n)]
      ensures errors == old(errors) + BalanceIssues(toks)
    {
      var balance := 0;
      for i := 0 to |toks|
        invariant balance >= 0 && errors == old(errors)
        invariant Balance(toks[i..], balance) == Balance(toks, 0)
      {
        assert toks[i..][1..] == toks[i + 1..];
        if toks[i] == LParen {
          balance := balance + 1;
        } else if toks[i] == RParen {
          balance := balance - 1;
        }
        if balance < 0 {
          Fail(UnmatchedClosing);
          return false;
        }
      }
      if balance > 0 {
        Fail(UnmatchedOpening(balance));
        return false;
      }
      return true;
    }

    method ValidateFilterIds(referenced: set<nat>) returns (ok: bool)
      modifies this`errors
      ensures ok <==> referenced <= validIds
      ensures errors == old(errors) + if ok then [] else [InvalidIds(referenced - validIds)]
    {
      var invalid := referenced - validIds;
      if invalid != {} {
        Fail(InvalidIds(invalid));
        return false;
      }
      assert forall id :: id in referenced && id !in validIds ==> id in invalid;
      return true;
    }

    ghost predicate Agrees(spec: Result<seq<Token>, Issue>, raised: Option<Issue>)
      reads this
    {
      match spec
      case Err(e) => raised == Some(e)
      case Ok(rest) => raised == None && tokens == rest
    }

    method ParseExpression() returns (raised: Option<Issue>)
      modifies this`tokens
      ensures Agrees(CheckExpr(old(tokens)), raised)
      decreases |tokens|, 3
    {
      raised := ParseTerm();
      if raised.Some? {
        return;
      }
      while tokens != [] && tokens[0] == Or
        invariant raised == None && CheckOrs(tokens) == CheckExpr(old(tokens))
        invariant |tokens| < |old(tokens)|
        decreases |tokens|
      {
        tokens := tokens[1..];
        if tokens == [] || tokens[0] in [And, Or, RParen] {
          return Some(OrWithoutOperand);
        }
        raised := ParseTerm();
        if raised.Some? {
          return;
        }
      }
    }

    method ParseTerm() returns (raised: Option<Issue>)
      modifies this`tokens
      ensures Agrees(CheckTerm(old(tokens)), raised)
      decreases |tokens|, 2
    {
      raised := ParseFactor();
      if raised.Some? {
        return;
      }
      while tokens != [] && tokens[0] == And
        invariant raised == None && CheckAnds(tokens) == CheckTerm(old(tokens))
        invariant |tokens| < |old(tokens)|
        decreases |tokens|
      {
        tokens := tokens[1..];
        if tokens == [] || tokens[0] in [And, Or, RParen] {
          return Some(AndWithoutOperand);
        }
        raised := ParseFactor();
        if raised.Some? {
          return;
        }
      }
    }

    method ParseFactor() returns (raised: Option<Issue>)
      modifies this`tokens
      ensures Agrees(CheckFactor(old(tokens)), raised)
      decreases |tokens|, 1
    {
      if tokens != [] && tokens[0] == Not {
        tokens := tokens[1..];
        if tokens == [] || tokens[0] in [And, Or] {
          return Some(NotWithoutOperand);
        }
        raised := ParseFactor();
      } else {
        raised := ParseAtom();
      }
    }

    method ParseAtom() returns (raised: Option<Issue>)
      modifies this`tokens
      ensures Agrees(CheckAtom(old(tokens)), raised)
      decreases |tokens|, 0
    {
      if tokens == [] {
        return Some(UnexpectedEnd);
      }
      var token := tokens[0];
      tokens := tokens[1..];
      if token == LParen {
        raised := ParseExpression();
        if raised == None {
          if tokens == [] || tokens[0] != RParen {
            return Some(MissingClosing);
          }
          tokens := tokens[1..];
        }
      } else if token.Num? {
        raised := None;
      } else {
        raised := Some(ExpectedOperand(token));
      }
    }

    method ValidateExpressionStructure(toks: seq<Token>) returns (ok: bool)
      modifies this`errors, this`tokens
      ensures ok <==> CheckExpr(toks) == Ok([])
      ensures CheckExpr(toks).Err? ==> errors == old(errors) + [CheckExpr(toks).error]
      ensures CheckExpr(toks).Ok? && CheckExpr(toks).value != [] ==>
        errors == old(errors) + [TrailingTokens(CheckExpr(toks).value)]
      ensures errors == old(errors) + StructureIssues(toks)
    {
      tokens := toks;
      var raised := ParseExpression();
      if raised.Some? {
        Fail(raised.value);
        return false;
      }
      if tokens != [] {
        Fail(TrailingTokens(tokens));
        return false;
      }
      return true;
    }

    /** The token stages of `validate`, run on a fresh validator and the tokens it found. */
    method Validate(toks: seq<Token>) returns (r: Report)
      requires errors == [] && warnings == [] && validIds == ValidIds(totalFilters)
      modifies this
      ensures r.valid <==> Sentence(toks) && IdsWithin(toks, totalFilters)
      ensures r.valid <==> r.errors == []
      ensures r.errors ==
        if EndIssues(toks) != [] then EndIssues(toks)
        else if BalanceIssues(toks) != [] then BalanceIssues(toks)
        else if !(ReferencedIds(toks) <= validIds) then [InvalidIds(ReferencedIds(toks) - validIds)]
        else StructureIssues(toks)
      ensures r.valid ==> r.referenced == ReferencedIds(toks)
      ensures r.valid ==> r.unreferenced == ValidIds(totalFilters) - ReferencedIds(toks)
      ensures r.warnings ==
        (if toks == [] || toks[0] in [And, Or] then [] else DoubleNegations(toks))
        + if EndIssues(toks) == [] && BalanceIssues(toks) == [] && ReferencedIds(toks) < validIds
          then [UnusedFilters(validIds - ReferencedIds(toks))] else []
      ensures !r.valid ==> r.referenced == {} && r.unreferenced == {}
    {
      hide CheckExpr, Balance, DoubleNegations, ReferencedIds, ValidIds, Sentence, IdsWithin;
      StagesAcceptSentences(toks, totalFilters);
      var ok := ValidateTokens(toks);
      if ok {
        ok := CheckParenthesesBalance(toks);
      }
      var referenced, unreferenced := {}, {};
      if ok {
        referenced := ReferencedIds(toks);
        ok := ValidateFilterIds(referenced);
      }
      if ok {
        unreferenced := validIds - referenced;
        assert forall id | id in validIds && id !in referenced :: id in unreferenced;
        assert unreferenced == {} || referenced != validIds;
        if unreferenced != {} {
          warnings := warnings + [UnusedFilters(unreferenced)];
        }
        ok := ValidateExpressionStructure(toks);
      }
      if !ok {
        return Report(false, errors, warnings, {}, {});
      }
      return Report(true, [], warnings, referenced, unreferenced);
    }
  }

  // ----- what the checks find -------------------------------------------------------------

  /** One remark for every NOT directly followed by another. */
  lemma DoubleNegationsCounted(toks: seq<Token>)
    ensures |DoubleNegations(toks)| == |set i | 0 <= i < |toks| && DoubleNot(toks, i)|
  {
    DoubleNegationsFrom(toks, 0);
    assert toks[0..] == toks;
  }

  lemma {:induction false} DoubleNegationsFrom(toks: seq<Token>, n: nat)
    requires n <= |toks|
    ensures |DoubleNegations(toks[n..])| == |set i | n <= i < |toks| && DoubleNot(toks, i)|
    decreases |toks| - n
  {
    var here := set i | n <= i < |toks| && DoubleNot(toks, i);
    if n + 1 < |toks| {
      DoubleNegationsFrom(toks, n + 1);
      var later := set i | n + 1 <= i < |toks| && DoubleNot(toks, i);
      assert toks[n..][1..] == toks[n + 1..];
      assert here == later + if DoubleNot(toks, n) then {n} else {};
    } else {
      assert here == {};
    }
  }

  /** The balance is the number of opening less that of closing parentheses, as long as no prefix
      has more of the latter; and otherwise there is none. */
  lemma BalanceCounts(toks: seq<Token>)
    ensures Balance(toks, 0).Some? <==>
      forall n | 0 <= n <= |toks| :: multiset(toks[..n])[RParen] <= multiset(toks[..n])[LParen]
    ensures Balance(toks, 0).Some? ==>
      Balance(toks, 0).value + multiset(toks)[RParen] == multiset(toks)[LParen]
  {
    BalanceFrom(toks, 0);
    assert toks[0..] == toks && toks[..|toks|] == toks;
  }

  lemma {:induction false} BalanceFrom(toks: seq<Token>, m: nat)
    requires m <= |toks| && multiset(toks[..m])[RParen] <= multiset(toks[..m])[LParen]
    ensures var b := Balance(toks[m..], multiset(toks[..m])[LParen] - multiset(toks[..m])[RParen]);
      && (b.Some? <==> forall n | m <= n <= |toks| :: multiset(toks[..n])[RParen] <= multiset(toks[..n])[LParen])
      && (b.Some? ==> b.value + multiset(toks[..|toks|])[RParen] == multiset(toks[..|toks|])[LParen])
    decreases |toks| - m
  {
    if m < |toks| {
      assert toks[..m + 1] == toks[..m] + [toks[m]] && toks[m..][1..] == toks[m + 1..];
      if multiset(toks[..m + 1])[RParen] <= multiset(toks[..m + 1])[LParen] {
        BalanceFrom(toks, m + 1);
      }
    }
  }

  /** What the descent raises is the case at position `i`. */
  predicate Occurs(toks: seq<Token>, i: nat, issue: Issue)
    requires i <= |toks|
  {
    var next := if i == |toks| then None else Some(toks[i]);
    match issue
    case OrWithoutOperand => i > 0 && toks[i - 1] == Or && next in [None, Some(And), Some(Or), Some(RParen)]
    case AndWithoutOperand => i > 0 && toks[i - 1] == And && next in [None, Some(And), Some(Or), Some(RParen)]
    case NotWithoutOperand => i > 0 && toks[i - 1] == Not && next in [None, Some(And), Some(Or)]
    case UnexpectedEnd => Expecting(toks, i) && next == None
    case MissingClosing => Completed(toks, i) && next !in [Some(RParen), Some(And), Some(Or)]
    case ExpectedOperand(tok) => Expecting(toks, i) && next == Some(tok) && tok in [And, Or, RParen]
    case _ => false
  }

  /** The outcome of a part of the descent that has read up to position `i`. */
  ghost predicate Traced(toks: seq<Token>, r: Result<seq<Token>, Issue>, more: seq<Token>) {
    match r
    case Err(e) => exists i :: 0 <= i <= |toks| && Occurs(toks, i, e)
    case Ok(rest) =>
      && |rest| <= |toks| && rest == toks[|toks| - |rest|..] && Completed(toks, |toks| - |rest|)
      && forall tok | tok in more :: !StartsWith(rest, tok)
  }

  lemma {:induction false} ExprTraced(toks: seq<Token>, i: nat)
    requires i <= |toks| && Expecting(toks, i)
    ensures Traced(toks, CheckExpr(toks[i..]), [Or, And])
    decreases |toks| - i, 3
  {
    hide CheckTerm, CheckOrs, Occurs;
    TermTraced(toks, i);
    var first := CheckTerm(toks[i..]);
    if first.Ok? {
      OrsTraced(toks, |toks| - |first.value|);
    }
  }

  lemma {:induction false} OrsTraced(toks: seq<Token>, i: nat)
    requires i <= |toks| && Completed(toks, i) && !StartsWith(toks[i..], And)
    ensures Traced(toks, CheckOrs(toks[i..]), [Or, And])
    decreases |toks| - i, 0
  {
    hide CheckTerm;
    if StartsWith(toks[i..], Or) {
      assert toks[i..][1..] == toks[i + 1..];
      if i + 1 == |toks| || toks[i + 1] in [And, Or, RParen] {
        assert Occurs(toks, i + 1, OrWithoutOperand);
      } else {
        TermTraced(toks, i + 1);
        var step := CheckTerm(toks[i + 1..]);
        if step.Ok? {
          OrsTraced(toks, |toks| - |step.value|);
        }
      }
    }
  }

  lemma {:induction false} TermTraced(toks: seq<Token>, i: nat)
    requires i <= |toks| && Expecting(toks, i)
    ensures Traced(toks, CheckTerm(toks[i..]), [And])
    decreases |toks| - i, 2
  {
    hide CheckFactor, CheckAnds, Occurs;
    FactorTraced(toks, i);
    var first := CheckFactor(toks[i..]);
    if first.Ok? {
      AndsTraced(toks, |toks| - |first.value|);
    }
  }

  lemma {:induction false} AndsTraced(toks: seq<Token>, i: nat)
    requires i <= |toks| && Completed(toks, i)
    ensures Traced(toks, CheckAnds(toks[i..]), [And])
    decreases |toks| - i, 0
  {
    hide CheckFactor;
    if StartsWith(toks[i..], And) {
      assert toks[i..][1..] == toks[i + 1..];
      if i + 1 == |toks| || toks[i + 1] in [And, Or, RParen] {
        assert Occurs(toks, i + 1, AndWithoutOperand);
      } else {
        FactorTraced(toks, i + 1);
        var step := CheckFactor(toks[i + 1..]);
        if step.Ok? {
          AndsTraced(toks, |toks| - |step.value|);
        }
      }
    }
  }

  lemma {:induction false} FactorTraced(toks: seq<Token>, i: nat)
    requires i <= |toks| && Expecting(toks, i)
    ensures Traced(toks, CheckFactor(toks[i..]), [])
    decreases |toks| - i, 1
  {
    if StartsWith(toks[i..], Not) {
      assert toks[i..][1..] == toks[i + 1..];
      if i + 1 == |toks| || toks[i + 1] in [And, Or] {
        assert Occurs(toks, i + 1, NotWithoutOperand);
      } else {
        FactorTraced(toks, i + 1);
      }
    } else {
      AtomTraced(toks, i);
    }
  }

  lemma {:induction false} AtomTraced(toks: seq<Token>, i: nat)
    requires i <= |toks| && Expecting(toks, i) && !StartsWith(toks[i..], Not)
    ensures Traced(toks, CheckAtom(toks[i..]), [])
    decreases |toks| - i, 0
  {
    hide CheckExpr, Occurs;
    AtomRaises(toks, i);
    if i < |toks| {
      assert toks[i..][1..] == toks[i + 1..];
      if toks[i] == LParen {
        ExprTraced(toks, i + 1);
        var inner := CheckExpr(toks[i + 1..]);
        if inner.Ok? {
          ParenthesisTraced(toks, |toks| - |inner.value|);
        }
      }
    }
  }

  /** What is raised where an operand is expected. */
  lemma AtomRaises(toks: seq<Token>, i: nat)
    requires i <= |toks| && Expecting(toks, i) && !StartsWith(toks[i..], Not)
    ensures i == |toks| ==> Occurs(toks, i, UnexpectedEnd)
    ensures i < |toks| && !toks[i].Num? && toks[i] != LParen ==> Occurs(toks, i, ExpectedOperand(toks[i]))
  {
  }

  /** A completed expression that neither AND nor OR continues is closed, or not. */
  lemma ParenthesisTraced(toks: seq<Token>, j: nat)
    requires j <= |toks| && Completed(toks, j)
    ensures StartsWith(toks[j..], RParen) ==> toks[j..][1..] == toks[j + 1..]
    ensures !StartsWith(toks[j..], RParen) && !StartsWith(toks[j..], And) && !StartsWith(toks[j..], Or)
      ==> Occurs(toks, j, MissingClosing)
  {
  }

  /** Whatever the descent raises is the case somewhere in the token list. */
  lemma RaisedIssueOccurs(toks: seq<Token>)
    requires CheckExpr(toks).Err?
    ensures exists i :: 0 <= i <= |toks| && Occurs(toks, i, CheckExpr(toks).error)
  {
    assert toks[0..] == toks;
    ExprTraced(toks, 0);
  }

  // ----- the two descents agree -----------------------------------------------------------

  /** Both fail, or both succeed leaving the same tokens. */
  ghost predicate Same<T>(r: Result<seq<Token>, Issue>, p: Parser.Parse<T>) {
    if r.Ok? then p.Done? && p.rest == r.value else p.Raised?
  }

  /** The lookahead tests only anticipate a failure that is coming anyway. */
  lemma NoOperandFails(toks: seq<Token>, n: nat)
    requires toks == [] || toks[0] in [And, Or, RParen]
    ensures Parser.ParseFactor(toks, n).Raised? && Parser.ParseTerm(toks, n).Raised?
  {
    assert Parser.ParseFactor(toks, n) == Parser.ParseAtom(toks, n);
  }

  lemma {:induction false} ExprAgrees(toks: seq<Token>, n: nat)
    requires IdsWithin(toks, n)
    ensures Same(CheckExpr(toks), Parser.ParseExpr(toks, n))
    decreases |toks|, 3
  {
    TermAgrees(toks, n);
    var first := Parser.ParseTerm(toks, n);
    if first.Done? {
      Parser.RestIsSuffix(toks, n);
      OrsAgree([first.value], first.rest, n);
    }
  }

  lemma {:induction false} OrsAgree(acc: seq<Tree<nat>>, toks: seq<Token>, n: nat)
    requires IdsWithin(toks, n) && acc != [] && Parser.AllWithin(acc, n)
    ensures Same(CheckOrs(toks), Parser.OrLoop(acc, toks, n))
    decreases |toks|, 0
  {
    if StartsWith(toks, Or) && (|toks| == 1 || toks[1] in [And, Or, RParen]) {
      NoOperandFails(toks[1..], n);
    } else if StartsWith(toks, Or) {
      TermAgrees(toks[1..], n);
      var step := Parser.ParseTerm(toks[1..], n);
      if step.Done? {
        Parser.RestIsSuffix(toks[1..], n);
        OrsAgree(acc + [step.value], step.rest, n);
      }
    }
  }

  lemma {:induction false} TermAgrees(toks: seq<Token>, n: nat)
    requires IdsWithin(toks, n)
    ensures Same(CheckTerm(toks), Parser.ParseTerm(toks, n))
    decreases |toks|, 2
  {
    FactorAgrees(toks, n);
    var first := Parser.ParseFactor(toks, n);
    if first.Done? {
      Parser.RestIsSuffix(toks, n);
      AndsAgree([first.value], first.rest, n);
    }
  }

  lemma {:induction false} AndsAgree(acc: seq<Tree<nat>>, toks: seq<Token>, n: nat)
    requires IdsWithin(toks, n) && acc != [] && Parser.AllWithin(acc, n)
    ensures Same(CheckAnds(toks), Parser.AndLoop(acc, toks, n))
    decreases |toks|, 0
  {
    if StartsWith(toks, And) && (|toks| == 1 || toks[1] in [And, Or, RParen]) {
      NoOperandFails(toks[1..], n);
    } else if StartsWith(toks, And) {
      FactorAgrees(toks[1..], n);
      var step := Parser.ParseFactor(toks[1..], n);
      if step.Done? {
        Parser.RestIsSuffix(toks[1..], n);
        AndsAgree(acc + [step.value], step.rest, n);
      }
    }
  }

  lemma {:induction false} FactorAgrees(toks: seq<Token>, n: nat)
    requires IdsWithin(toks, n)
    ensures Same(CheckFactor(toks), Parser.ParseFactor(toks, n))
    decreases |toks|, 1
  {
    if StartsWith(toks, Not) && (|toks| == 1 || toks[1] in [And, Or]) {
      NoOperandFails(toks[1..], n);
    } else if StartsWith(toks, Not) {
      FactorAgrees(toks[1..], n);
    } else {
      assert Parser.ParseFactor(toks, n) == Parser.ParseAtom(toks, n) && CheckFactor(toks) == CheckAtom(toks);
      if StartsWith(toks, LParen) {
        ExprAgrees(toks[1..], n);
      } else if toks != [] && toks[0].Num? {
        assert Num(toks[0].id) in toks;
      }
    }
  }

  // ----- the pre-checks reject no sentence ------------------------------------------------

  /** The last token of a token list. */
  function Last(toks: seq<Token>): Token
    requires toks != []
  {
    toks[|toks| - 1]
  }

  /** The consecutive-operator test of `_check_basic_syntax`, on tokens. */
  ghost predicate NoAdjacentOperators(toks: seq<Token>) {
    forall i, j :: 0 <= i && j == i + 1 < |toks| ==> !(Binary(toks[i]) && Binary(toks[j]))
  }

  /** A derived expression neither starts nor ends with AND or OR, never has
      two of them side by side, and reading it leaves any
      parenthesis balance unchanged. */
  lemma {:induction false} ExprPassesPreChecks(e: Expr, tail: seq<Token>, balance: nat)
    ensures ExprTokens(e) != [] && !Binary(ExprTokens(e)[0]) && !Binary(Last(ExprTokens(e)))
    ensures NoAdjacentOperators(ExprTokens(e))
    ensures Balance(ExprTokens(e) + tail, balance) == Balance(tail, balance)
    decreases e
  {
    match e
    case LastTerm(t) => TermPassesPreChecks(t, tail, balance);
    case OrMore(t, more) =>
      var later := [Or] + (ExprTokens(more) + tail);
      assert ExprTokens(e) + tail == TermTokens(t) + later && later[1..] == ExprTokens(more) + tail;
      TermPassesPreChecks(t, later, balance);
      ExprPassesPreChecks(more, tail, balance);
  }

  lemma {:induction false} TermPassesPreChecks(t: Term, tail: seq<Token>, balance: nat)
    ensures TermTokens(t) != [] && !Binary(TermTokens(t)[0]) && !Binary(Last(TermTokens(t)))
    ensures NoAdjacentOperators(TermTokens(t))
    ensures Balance(TermTokens(t) + tail, balance) == Balance(tail, balance)
    decreases t
  {
    match t
    case LastFactor(f) => FactorPassesPreChecks(f, tail, balance);
    case AndMore(f, more) =>
      var later := [And] + (TermTokens(more) + tail);
      assert TermTokens(t) + tail == FactorTokens(f) + later && later[1..] == TermTokens(more) + tail;
      FactorPassesPreChecks(f, later, balance);
      TermPassesPreChecks(more, tail, balance);
  }

  lemma {:induction false} FactorPassesPreChecks(f: Factor, tail: seq<Token>, balance: nat)
    ensures FactorTokens(f) != [] && !Binary(FactorTokens(f)[0]) && !Binary(Last(FactorTokens(f)))
    ensures NoAdjacentOperators(FactorTokens(f))
    ensures Balance(FactorTokens(f) + tail, balance) == Balance(tail, balance)
    decreases f
  {
    var toks := FactorTokens(f) + tail;
    match f
    case Negation(g) =>
      assert toks[1..] == FactorTokens(g) + tail;
      FactorPassesPreChecks(g, tail, balance);
    case Atom(Number(id)) =>
      assert FactorTokens(f) == [Num(id)] && toks[1..] == tail;
    case Atom(Paren(e)) =>
      assert FactorTokens(f) == [LParen] + ExprTokens(e) + [RParen];
      var later := [RParen] + tail;
      assert toks[1..] == ExprTokens(e) + later && later[1..] == tail;
      ExprPassesPreChecks(e, later, balance + 1);
  }

  /** All token stages together accept exactly the sentences over the filters 1..n. */
  lemma StagesAcceptSentences(toks: seq<Token>, n: nat)
    ensures Sentence(toks) && IdsWithin(toks, n) <==>
      (toks != [] && !Binary(toks[0]) && !Binary(Last(toks)) && Balance(toks, 0) == Some(0)
       && ReferencedIds(toks) <= ValidIds(n) && CheckExpr(toks) == Ok([]))
  {
    Parser.SentenceConsumed(toks, n);
    if IdsWithin(toks, n) {
      ExprAgrees(toks, n);
    }
    if Sentence(toks) {
      var e :| ExprTokens(e) == toks;
      assert toks + [] == toks;
      ExprPassesPreChecks(e, [], 0);
    }
    if ReferencedIds(toks) <= ValidIds(n) {
      assert IdsWithin(toks, n);
    }
  }

  /** Without the pre-checks the descent alone already decides: they reject nothing it accepts. */
  lemma PreChecksAreRedundant(toks: seq<Token>, n: nat)
    requires IdsWithin(toks, n) && CheckExpr(toks) == Ok([])
    ensures toks != [] && !Binary(toks[0]) && !Binary(Last(toks)) && Balance(toks, 0) == Some(0)
    ensures NoAdjacentOperators(toks)
  {
    Parser.SentenceConsumed(toks, n);
    ExprAgrees(toks, n);
    StagesAcceptSentences(toks, n);
    var e :| ExprTokens(e) == toks;
    ExprPassesPreChecks(e, [], 0);
  }

  /** Everything the validator accepts, the tree builder turns into one tree using every token. */
  lemma ValidatedLogicBuilds(toks: seq<Token>, n: nat)
    requires Sentence(toks) && IdsWithin(toks, n)
    ensures exists e :: ExprTokens(e) == toks && Parser.ParseExpr(toks, n) == Parser.Done(ExprTree(e), [])
  {
    var e :| ExprTokens(e) == toks;
    assert ExprTokens(e) + [] == toks;
    Parser.ParseExprComplete(e, [], n);
  }

  /** The converse fails: after a complete expression the builder ignores whatever follows. */
  lemma BuilderAcceptsMore()
    ensures Parser.ParseExpr([Num(1), Num(2)], 2).Done? && !Sentence([Num(1), Num(2)])
  {
    var toks := [Num(1), Num(2)];
    assert Parser.ParseFactor(toks, 2) == Parser.Done(Leaf(1), toks[1..]);
    assert IdsWithin(toks, 2);
    Parser.SentenceConsumed(toks, 2);
  }
}
