/** The syntax check of formulas and the evaluator it is meant to protect
    (`validate_formula_syntax`, api/formulas/formula_validation.py:184-244; `process_formula`,
    api/formulas/evaluate_formula.py:50-118). */
module FormulaSyntax {
  import opened Prelude
  import opened FormulaScan

  /** Function names with the number of their parameters. */
  type Metadata = map<string, nat>

  datatype Issue =
    | EmptyFormula
    | Unbalanced
    | InvalidFunction(name: string)
    | WrongParameterCount(name: string, got: nat)

  // ----- the syntax check -----------------------------------------------------------------

  predicate Blank(f: string) { Strip(f) == "" }

  /** The running depth from `i` on stays non-negative and ends at 0. */
  predicate BalancedFrom(f: string, i: nat, depth: int)
    requires i <= |f|
    decreases |f| - i
  {
    if i == |f| then depth == 0
    else depth + Delta(f[i]) >= 0 && BalancedFrom(f, i + 1, depth + Delta(f[i]))
  }

  function CountIssue(meta: Metadata, name: string, got: nat): Option<Issue> {
    if name !in meta then Some(InvalidFunction(name))
    else if name == "CASE" then
      if got < 3 || got % 2 == 0 then Some(WrongParameterCount(name, got)) else None
    else if got != meta[name] then Some(WrongParameterCount(name, got))
    else None
  }

  /** The first issue that the check raises, if any. */
  function Validate(f: string, meta: Metadata): Option<Issue>
    decreases |f|, 2
  {
    if Blank(f) then Some(EmptyFormula)
    else if !BalancedFrom(f, 0, 0) then Some(Unbalanced)
    else ValidateCalls(Texts(f, Spans(f)), |f|, meta)
  }

  function ValidateCalls(calls: seq<string>, bound: nat, meta: Metadata): Option<Issue>
    requires forall k | 0 <= k < |calls| :: |calls[k]| <= bound
    decreases bound, 1, |calls|
  {
    if calls == [] then None
    else
      var p := ParseFunction(calls[0]);
      if p.name.None? then ValidateCalls(calls[1..], bound, meta)
      else if CountIssue(meta, p.name.value, |p.params|).Some? then CountIssue(meta, p.name.value, |p.params|)
      else
        match ValidateParams(p.params, bound, meta)
        case Some(issue) => Some(issue)
        case None => ValidateCalls(calls[1..], bound, meta)
  }

  function ValidateParams(params: seq<string>, bound: nat, meta: Metadata): Option<Issue>
    requires forall k | 0 <= k < |params| :: |params[k]| < bound
    decreases bound, 0, |params|
  {
    if params == [] then None
    else if '(' !in Strip(params[0]) then ValidateParams(params[1..], bound, meta)
    else
      match Validate(Strip(params[0]), meta)
      case Some(issue) => Some(issue)
      case None => ValidateParams(params[1..], bound, meta)
  }

  /** `validate_formula_syntax` */
  method ValidateFormulaSyntax(f: string, meta: Metadata) returns (issue: Option<Issue>)
    ensures issue == Validate(f, meta)
    decreases |f|
  {
    hide Spans, ParseFunction, Strip;
    if f == [] || Blank(f) {
      EmptyIsBlank();
      return Some(EmptyFormula);
    }
    var depth := 0;
    for i := 0 to |f|
      invariant depth >= 0 && BalancedFrom(f, i, depth) == BalancedFrom(f, 0, 0)
    {
      if f[i] == '(' {
        depth := depth + 1;
      } else if f[i] == ')' {
        depth := depth - 1;
      }
      if depth < 0 {
        return Some(Unbalanced);
      }
    }
    if depth != 0 {
      return Some(Unbalanced);
    }
    var functions := ExtractFunctions(f);
    for c := 0 to |functions|
      invariant ValidateCalls(functions[c..], |f|, meta) == ValidateCalls(functions, |f|, meta)
    {
      assert functions[c..][1..] == functions[c + 1..] && functions[c..][0] == functions[c];
      var p := ParseFunction(functions[c]);
      if p.name.None? {
        continue;
      }
      var count := CountIssue(meta, p.name.value, |p.params|);
      if count.Some? {
        return count;
      }
      for k := 0 to |p.params|
        invariant ValidateParams(p.params[k..], |f|, meta) == ValidateParams(p.params, |f|, meta)
      {
        assert p.params[k..][1..] == p.params[k + 1..] && p.params[k..][0] == p.params[k];
        var param := Strip(p.params[k]);
        if '(' in param {
          var inner := ValidateFormulaSyntax(param, meta);
          if inner.Some? {
            return inner;
          }
        }
      }
    }
    return None;
  }

  lemma EmptyIsBlank()
    ensures Blank("")
  {
  }

  // ----- the evaluator's recursion --------------------------------------------------------

  datatype Failure = UnsupportedFunction(name: string) | RecursionLimit

  /** The first structural failure of evaluating a formula, when every function applied yields a
      value: an unknown function name, or recursion below depth 1. */
  function Walk(f: string, meta: Metadata, depth: int): Option<Failure>
    decreases |f|, 2
  {
    if depth <= 0 then Some(RecursionLimit) else WalkCalls(Texts(f, Spans(f)), |f|, meta, depth)
  }

  function WalkCalls(calls: seq<string>, bound: nat, meta: Metadata, depth: int): Option<Failure>
    requires forall k | 0 <= k < |calls| :: |calls[k]| <= bound
    decreases bound, 1, |calls|
  {
    if calls == [] then None
    else
      var p := ParseFunction(calls[0]);
      if p.name.None? then WalkCalls(calls[1..], bound, meta, depth)
      else if p.name.value !in meta then Some(UnsupportedFunction(p.name.value))
      else
        match WalkParams(p.params, bound, meta, depth)
        case Some(failure) => Some(failure)
        case None => WalkCalls(calls[1..], bound, meta, depth)
  }

  function WalkParams(params: seq<string>, bound: nat, meta: Metadata, depth: int): Option<Failure>
    requires forall k | 0 <= k < |params| :: |params[k]| < bound
    decreases bound, 0, |params|
  {
    if params == [] then None
    else if '(' !in Strip(params[0]) then WalkParams(params[1..], bound, meta, depth)
    else
      match Walk(Strip(params[0]), meta, depth - 1)
      case Some(failure) => Some(failure)
      case None => WalkParams(params[1..], bound, meta, depth)
  }

  /** The control flow of `process_formula`: the same calls and parameters, values left aside. */
  method ProcessFormula(f: string, meta: Metadata, depth: int) returns (failure: Option<Failure>)
    ensures failure == Walk(f, meta, depth)
    decreases |f|
  {
    hide Spans, ParseFunction, Strip;
    if depth <= 0 {
      return Some(RecursionLimit);
    }
    var functions := ExtractFunctions(f);
    for c := 0 to |functions|
      invariant WalkCalls(functions[c..], |f|, meta, depth) == WalkCalls(functions, |f|, meta, depth)
    {
      assert functions[c..][1..] == functions[c + 1..] && functions[c..][0] == functions[c];
      var p := ParseFunction(functions[c]);
      if p.name.None? {
        continue;
      }
      if p.name.value !in meta {
        return Some(UnsupportedFunction(p.name.value));
      }
      for k := 0 to |p.params|
        invariant WalkParams(p.params[k..], |f|, meta, depth) == WalkParams(p.params, |f|, meta, depth)
      {
        assert p.params[k..][1..] == p.params[k + 1..] && p.params[k..][0] == p.params[k];
        var param := Strip(p.params[k]);
        if '(' in param {
          var inner := ProcessFormula(param, meta, depth - 1);
          if inner.Some? {
            return inner;
          }
        }
      }
    }
    return None;
  }

  // ----- nesting --------------------------------------------------------------------------

  /** The deepest parenthesis nesting reached in a text. */
  function Peak(s: string): (p: int)
    ensures p >= 0
  {
    if s == [] then 0
    else
      var before := Peak(s[..|s| - 1]);
      if Depth(s) > before then Depth(s) else before
  }

  lemma {:induction false} PeakBounds(s: string, n: nat)
    requires n <= |s|
    ensures Depth(s[..n]) <= Peak(s)
  {
    if n == |s| {
      assert s[..n] == s;
    } else {
      PeakBounds(s[..|s| - 1], n);
      assert s[..|s| - 1][..n] == s[..n];
    }
  }

  lemma {:induction false} PeakOfSlice(f: string, x: nat, y: nat)
    requires x <= y <= |f|
    ensures Depth(f[..x]) + Peak(f[x..y]) <= Peak(f)
    decreases y - x
  {
    if x == y {
      PeakBounds(f, x);
      assert f[x..y] == [];
    } else {
      PeakOfSlice(f, x, y - 1);
      assert f[x..y][..y - x - 1] == f[x..y - 1];
      assert f[..y] == f[..x] + f[x..y];
      DepthConcat(f[..x], f[x..y]);
      PeakBounds(f, y);
    }
  }

  lemma {:induction false} BalancedScan(f: string, i: nat, n: nat)
    requires i <= n <= |f| && BalancedFrom(f, i, Depth(f[..i])) && Depth(f[..i]) >= 0
    ensures Depth(f[..n]) >= 0
    decreases n - i
  {
    if i < n {
      assert f[..i + 1][..i] == f[..i];
      BalancedScan(f, i + 1, n);
    }
  }

  lemma SliceOfSlice(s: string, a: nat, b: nat, c: nat, d: nat)
    requires a <= b <= |s| && c <= d <= b - a
    ensures s[a..b][c..d] == s[a + c..a + d]
  {
    var l, r := s[a..b][c..d], s[a + c..a + d];
    assert |l| == |r| && forall i | 0 <= i < |l| :: l[i] == s[a + c + i] && r[i] == s[a + c + i];
    assert l == r;
  }

  lemma StripIsSlice(s: string) returns (x: nat, y: nat)
    ensures x <= y <= |s| && Strip(s) == s[x..y]
  {
    var t := StripLeft(s);
    x := |s| - |t|;
    y := x + |Strip(s)|;
    assert t == s[x..];
  }

  lemma StrippedSlice(s: string, a: nat, b: nat) returns (x: nat, y: nat)
    requires a <= b <= |s|
    ensures x <= y <= |s| && Strip(s[a..b]) == s[x..y]
  {
    hide Strip;
    var l, r := StripIsSlice(s[a..b]);
    SliceOfSlice(s, a, b, l, r);
    x, y := a + l, a + r;
  }

  lemma {:induction false} PieceIsSlice(s: string, start: nat, i: nat, depth: nat, k: nat) returns (x: nat, y: nat)
    requires start <= i <= |s| && k < |SplitFrom(s, start, i, depth)|
    ensures x <= y <= |s| && SplitFrom(s, start, i, depth)[k] == s[x..y]
    decreases |s| - i
  {
    hide Strip;
    if i == |s| {
      x, y := StrippedSlice(s, start, i);
      assert s[start..] == s[start..i];
    } else if s[i] == ',' && depth == 0 {
      if k == 0 {
        x, y := StrippedSlice(s, start, i);
      } else {
        x, y := PieceIsSlice(s, i + 1, i + 1, depth, k - 1);
      }
    } else if s[i] == '(' {
      x, y := PieceIsSlice(s, start, i + 1, depth + 1, k);
    } else if s[i] == ')' && depth > 0 {
      x, y := PieceIsSlice(s, start, i + 1, depth - 1, k);
    } else {
      x, y := PieceIsSlice(s, start, i + 1, depth, k);
    }
  }

  /** A parameter, trimmed once more, is a slice of the text between the parentheses. */
  lemma ParamIsSlice(call: string, k: nat) returns (x: nat, y: nat)
    requires Inner(call).Some? && k < |ParseFunction(call).params|
    ensures x <= y <= |Inner(call).value| && Strip(ParseFunction(call).params[k]) == Inner(call).value[x..y]
  {
    hide Strip, SplitFrom;
    var inner := Inner(call).value;
    var a, b := StripIsSlice(inner);
    var c, d := PieceIsSlice(Strip(inner), 0, 0, 0, k);
    var e, g := StripIsSlice(ParseFunction(call).params[k]);
    x, y := a + c + e, a + c + g;
    SliceOfSlice(inner, a, b, c, d);
    SliceOfSlice(inner, a + c, a + d, e, g);
  }

  /** In an extracted call that parses, the argument text follows the parenthesis it opens at. */
  lemma InnerOfSpan(f: string, s: Span)
    requires IsCall(f, s) && f[s.end - 1] == ')' && Inner(Text(f, s)).Some?
    ensures Inner(Text(f, s)).value == f[s.open + 1..s.end - 1]
  {
    hide Enclosed;
    hide Depth;
    var call := Text(f, s);
    var e: nat :| NameThenSpaces(f, s.start, e, s.open);
    var n := NameLength(call);
    assert forall m | 0 <= m < |call| :: call[m] == f[s.start + m];
    assert !IsName(call[n]) && call[n] == f[s.start + n];
    assert n >= e - s.start;
    assert !IsName(f[e]) && f[e] == call[e - s.start];
    assert n == e - s.start;
    assert e == s.open;
    assert call[|call| - 1] == ')' && LastClosing(call) == Some(|call| - 1);
    SliceOfSlice(f, s.start, s.end, n + 1, |call| - 1);
  }

  /** Everything inside an extracted call lies at least one parenthesis deeper than the text. */
  lemma ParamIsShallower(f: string, s: Span, k: nat)
    requires IsCall(f, s) && f[s.end - 1] == ')' && BalancedFrom(f, 0, 0)
    requires k < |ParseFunction(Text(f, s)).params|
    ensures Peak(Strip(ParseFunction(Text(f, s)).params[k])) < Peak(f)
  {
    hide Strip, BalancedFrom, NameThenSpaces, Peak, Depth;
    InnerOfSpan(f, s);
    var x, y := ParamIsSlice(Text(f, s), k);
    var from, to := s.open + 1 + x, s.open + 1 + y;
    SliceOfSlice(f, s.open + 1, s.end - 1, x, y);
    PeakOfSlice(f, from, to);
    assert f[..from] == f[..s.open] + f[s.open..from];
    DepthConcat(f[..s.open], f[s.open..from]);
    assert Depth(f[s.open..from]) >= 1;
    NonNegative(f, s.open);
  }

  lemma NonNegative(f: string, n: nat)
    requires BalancedFrom(f, 0, 0) && n <= |f|
    ensures Depth(f[..n]) >= 0
  {
    assert f[..0] == [];
    BalancedScan(f, 0, n);
  }

  // ----- the syntax check covers the evaluator --------------------------------------------

  ghost predicate Shallower(params: seq<string>, peak: int) {
    forall k | 0 <= k < |params| :: Peak(Strip(params[k])) < peak
  }

  ghost predicate Harmless(failure: Option<Failure>, peak: int, depth: int) {
    failure == None || (failure == Some(RecursionLimit) && peak > depth)
  }

  /** A formula that passes the check never meets an unknown function, at any level, and reaches
      the recursion limit only if its parentheses nest deeper than the limit. */
  lemma {:induction false} CheckCoversEvaluation(f: string, meta: Metadata, depth: int)
    requires Validate(f, meta) == None && depth >= 1
    ensures Harmless(Walk(f, meta, depth), Peak(f), depth)
    decreases |f|, 2
  {
    hide Strip, Peak, Depth, IsCall, CallsInOrder, ParseFunction;
    var spans := Spans(f);
    SpansAreCallsInOrder(f, 0, 0);
    forall k | 0 <= k < |spans|
      ensures Shallower(ParseFunction(Text(f, spans[k])).params, Peak(f))
    {
      SpanCloses(f, 0, k);
      CallInOrder(f, spans, k);
      forall m | 0 <= m < |ParseFunction(Text(f, spans[k])).params|
        ensures Peak(Strip(ParseFunction(Text(f, spans[k])).params[m])) < Peak(f)
      {
        ParamIsShallower(f, spans[k], m);
      }
    }
    CallsCovered(Texts(f, spans), |f|, meta, depth, Peak(f));
  }

  lemma CallInOrder(f: string, spans: seq<Span>, k: nat)
    requires CallsInOrder(f, 0, spans) && k < |spans|
    ensures IsCall(f, spans[k])
  {
  }

  lemma {:induction false} SpanCloses(f: string, i: nat, k: nat)
    requires i <= |f| && k < |SpansFrom(f, i)|
    ensures 0 < SpansFrom(f, i)[k].end <= |f| && f[SpansFrom(f, i)[k].end - 1] == ')'
    decreases |f| - i
  {
    if i < |f| {
      if f[i] == '(' && SpanAt(f, i).Some? {
        if k > 0 {
          SpanCloses(f, SpanAt(f, i).value.end, k - 1);
        }
      } else {
        SpanCloses(f, i + 1, k);
      }
    }
  }

  lemma {:induction false} CallsCovered(calls: seq<string>, bound: nat, meta: Metadata, depth: int, peak: int)
    requires forall k | 0 <= k < |calls| :: |calls[k]| <= bound && Shallower(ParseFunction(calls[k]).params, peak)
    requires ValidateCalls(calls, bound, meta) == None && depth >= 1
    ensures Harmless(WalkCalls(calls, bound, meta, depth), peak, depth)
    decreases bound, 1, |calls|
  {
    hide Strip, Peak, ParseFunction, Shallower, Spans;
    if calls != [] {
      var p := ParseFunction(calls[0]);
      if p.name.Some? {
        ParamsCovered(p.params, bound, meta, depth, peak);
      }
      CallsCovered(calls[1..], bound, meta, depth, peak);
    }
  }

  lemma {:induction false} ParamsCovered(params: seq<string>, bound: nat, meta: Metadata, depth: int, peak: int)
    requires forall k | 0 <= k < |params| :: |params[k]| < bound
    requires Shallower(params, peak) && ValidateParams(params, bound, meta) == None && depth >= 1
    ensures Harmless(WalkParams(params, bound, meta, depth), peak, depth)
    decreases bound, 0, |params|
  {
    hide Strip, Peak, ParseFunction, Spans, Depth;
    if params != [] {
      var param := Strip(params[0]);
      assert Peak(param) < peak;
      if '(' in param {
        if depth > 1 {
          CheckCoversEvaluation(param, meta, depth - 1);
        } else {
          OpenMeansDeep(param);
        }
      }
      ParamsCovered(params[1..], bound, meta, depth, peak);
    }
  }

  /** A checked text with an opening parenthesis nests at least once. */
  lemma OpenMeansDeep(f: string)
    requires '(' in f
    ensures BalancedFrom(f, 0, 0) ==> Peak(f) >= 1
  {
    if BalancedFrom(f, 0, 0) {
      var i :| 0 <= i < |f| && f[i] == '(';
      NonNegative(f, i);
      assert f[..i + 1][..i] == f[..i];
      PeakBounds(f, i + 1);
    }
  }

  /** With at most 50 nested parentheses, nothing fails. */
  lemma CheckedFormulaEvaluates(f: string, meta: Metadata)
    requires Validate(f, meta) == None && Peak(f) <= 50
    ensures Walk(f, meta, 50) == None
  {
    CheckCoversEvaluation(f, meta, 50);
  }

  // ----- what the check accepts, and what it raises -----------------------------------------

  lemma {:induction false} BalancedFromMeans(f: string, i: nat)
    requires i <= |f| && Depth(f[..i]) >= 0
    ensures BalancedFrom(f, i, Depth(f[..i])) <==>
      Depth(f) == 0 && forall n | i <= n <= |f| :: Depth(f[..n]) >= 0
    decreases |f| - i
  {
    if i == |f| {
      assert f[..i] == f;
    } else {
      DepthNext(f, 0, i);
      assert f[0..i] == f[..i] && f[0..i + 1] == f[..i + 1];
      if Depth(f[..i + 1]) >= 0 {
        BalancedFromMeans(f, i + 1);
      }
    }
  }

  /** The running count accepts exactly the balanced texts. */
  lemma CheckedBalance(f: string)
    ensures BalancedFrom(f, 0, 0) <==> Balanced(f)
  {
    assert f[..0] == "";
    BalancedFromMeans(f, 0);
  }

  /** The number of parameters is one the function can have. */
  predicate RightCount(meta: Metadata, name: string, got: nat)
    requires name in meta
  {
    if name == "CASE" then got >= 3 && got % 2 == 1 else got == meta[name]
  }

  /** An extracted piece that does not parse is passed over; of one that does, the function is known,
      the number of parameters right, and every parameter with parentheses in it accepted. */
  ghost predicate AcceptedCall(call: string, meta: Metadata) {
    var p := ParseFunction(call);
    p.name.Some? ==>
      && p.name.value in meta && RightCount(meta, p.name.value, |p.params|)
      && forall k | 0 <= k < |p.params| && '(' in Strip(p.params[k]) :: Validate(Strip(p.params[k]), meta) == None
  }

  lemma {:induction false} ParamsAccepted(params: seq<string>, bound: nat, meta: Metadata)
    requires forall k | 0 <= k < |params| :: |params[k]| < bound
    ensures ValidateParams(params, bound, meta) == None <==>
      forall k | 0 <= k < |params| && '(' in Strip(params[k]) :: Validate(Strip(params[k]), meta) == None
  {
    hide Strip, Validate;
    if params != [] {
      ParamsAccepted(params[1..], bound, meta);
      assert forall k | 0 < k < |params| :: params[k] == params[1..][k - 1];
    }
  }

  lemma CallAccepted(call: string, bound: nat, meta: Metadata)
    requires |call| <= bound
    ensures AcceptedCall(call, meta) <==>
      var p := ParseFunction(call);
      p.name.Some? ==>
        CountIssue(meta, p.name.value, |p.params|) == None && ValidateParams(p.params, bound, meta) == None
  {
    hide ParseFunction, Strip, Validate, ValidateParams;
    ParamsAccepted(ParseFunction(call).params, bound, meta);
  }

  lemma {:induction false} CallsAccepted(calls: seq<string>, bound: nat, meta: Metadata)
    requires forall k | 0 <= k < |calls| :: |calls[k]| <= bound
    ensures ValidateCalls(calls, bound, meta) == None <==>
      forall k | 0 <= k < |calls| :: AcceptedCall(calls[k], meta)
  {
    hide ParseFunction, AcceptedCall, CountIssue, ValidateParams;
    if calls != [] {
      CallAccepted(calls[0], bound, meta);
      CallsAccepted(calls[1..], bound, meta);
      assert forall k | 0 < k < |calls| :: calls[k] == calls[1..][k - 1];
    }
  }

  /** A formula is accepted exactly if it is not blank, its parentheses are balanced, and each call
      extracted from it is acceptable, in its nested formulas too. */
  lemma AcceptedExactly(f: string, meta: Metadata)
    ensures Validate(f, meta) == None <==>
      Strip(f) != "" && Balanced(f) && forall k | 0 <= k < |Spans(f)| :: AcceptedCall(Text(f, Spans(f)[k]), meta)
  {
    hide Strip, AcceptedCall, Spans, ValidateCalls, Balanced, BalancedFrom;
    CheckedBalance(f);
    var calls := Texts(f, Spans(f));
    CallsAccepted(calls, |f|, meta);
    assert forall k | 0 <= k < |calls| :: calls[k] == Text(f, Spans(f)[k]);
  }

  /** Issues and failures come in reading order: those of the first calls first. */
  lemma {:induction false} FirstCallsFirst(a: seq<string>, b: seq<string>, bound: nat, meta: Metadata, depth: int)
    requires forall k | 0 <= k < |a + b| :: |(a + b)[k]| <= bound
    ensures (forall k | 0 <= k < |a| :: |a[k]| <= bound) && forall k | 0 <= k < |b| :: |b[k]| <= bound
    ensures ValidateCalls(a + b, bound, meta) ==
      if ValidateCalls(a, bound, meta).Some? then ValidateCalls(a, bound, meta) else ValidateCalls(b, bound, meta)
    ensures WalkCalls(a + b, bound, meta, depth) ==
      if WalkCalls(a, bound, meta, depth).Some? then WalkCalls(a, bound, meta, depth)
      else WalkCalls(b, bound, meta, depth)
  {
    hide ParseFunction, ValidateParams, WalkParams, CountIssue;
    assert forall k | 0 <= k < |a| :: (a + b)[k] == a[k];
    assert forall k | 0 <= k < |b| :: (a + b)[|a| + k] == b[k];
    if a == [] {
      assert a + b == b;
    } else {
      assert (a + b)[1..] == a[1..] + b;
      FirstCallsFirst(a[1..], b, bound, meta, depth);
    }
  }

  /** Of the issue of a call, and of the failure to evaluate one, the parameters decide in order. */
  lemma {:induction false} FirstParamDecides(params: seq<string>, bound: nat, meta: Metadata, depth: int, k: nat)
    requires forall m | 0 <= m < |params| :: |params[m]| < bound
    requires k < |params| && '(' in Strip(params[k])
    ensures (forall m | 0 <= m < k && '(' in Strip(params[m]) :: Validate(Strip(params[m]), meta) == None)
      && Validate(Strip(params[k]), meta).Some?
      ==> ValidateParams(params, bound, meta) == Validate(Strip(params[k]), meta)
    ensures (forall m | 0 <= m < k && '(' in Strip(params[m]) :: Walk(Strip(params[m]), meta, depth - 1) == None)
      && Walk(Strip(params[k]), meta, depth - 1).Some?
      ==> WalkParams(params, bound, meta, depth) == Walk(Strip(params[k]), meta, depth - 1)
  {
    hide Strip, Validate, Walk;
    if k > 0 {
      assert forall m | 0 < m < |params| :: params[m] == params[1..][m - 1];
      FirstParamDecides(params[1..], bound, meta, depth, k - 1);
    }
  }

  lemma {:induction false} NameHasNoDepth(name: string)
    requires forall m | 0 <= m < |name| :: IsName(name[m])
    ensures Depth(name) == 0 && forall n | 0 <= n <= |name| :: Depth(name[..n]) == 0
  {
    if name != [] {
      var front := name[..|name| - 1];
      NameHasNoDepth(front);
      forall n | 0 <= n <= |name| ensures Depth(name[..n]) == 0 {
        assert n < |name| ==> name[..n] == front[..n];
        assert n == |name| ==> name[..n] == name;
      }
    }
  }

  lemma WrappedIsArgument(name: string, inner: string)
    requires Identifier(name) && Balanced(inner)
    ensures Argument(name + "(" + inner + ")")
  {
    hide Depth;
    var f, n := name + "(" + inner + ")", |name|;
    NameHasNoDepth(name);
    assert f[n..] == "(" + inner + ")" && f[..n] == name;
    WrappedIsEnclosed(f, n, inner);
    forall m | 0 <= m <= |f| ensures Depth(f[..m]) >= 0 && (n < m < |f| ==> Depth(f[..m]) >= 1) {
      if m <= n {
        assert f[..m] == name[..m];
      } else {
        assert f[..m] == name + f[n..m];
        DepthConcat(name, f[n..m]);
        assert m == |f| ==> f[n..m] == f[n..|f| - 1 + 1];
      }
    }
    assert f == f[..|f|] && f == name + f[n..|f| - 1 + 1];
    DepthConcat(name, f[n..|f| - 1 + 1]);
    assert forall m | 0 <= m < n :: f[m] == name[m];
  }

  /** The text of a call stands for one call. */
  lemma OneCall(name: string, args: seq<string>)
    requires Identifier(name) && Arguments(args)
    ensures var f := CallText(name, args);
      Texts(f, Spans(f)) == [f] && ParseFunction(f) == Parsed(Some(name), args) && Argument(f)
    ensures forall k | 0 <= k < |args| :: Strip(args[k]) == args[k]
  {
    hide Strip, Spans, Texts, ParseFunction, Argument, Join;
    CallTextRoundTrip(name, args);
    JoinBalanced(args);
    WrappedIsArgument(name, Join(args));
    forall k | 0 <= k < |args| ensures Strip(args[k]) == args[k] {
      assert Argument(args[k]);
      ArgumentIsStripped(args[k]);
    }
  }

  /** Which texts of calls the check accepts, and which issue it raises for the others. */
  lemma CheckOfCall(name: string, args: seq<string>, meta: Metadata)
    requires Identifier(name) && Arguments(args)
    ensures Validate(CallText(name, args), meta) == None <==>
      && name in meta && (if name == "CASE" then |args| >= 3 && |args| % 2 == 1 else |args| == meta[name])
      && forall k | 0 <= k < |args| && '(' in args[k] :: Validate(args[k], meta) == None
    ensures name !in meta ==> Validate(CallText(name, args), meta) == Some(InvalidFunction(name))
    ensures name in meta && !(if name == "CASE" then |args| >= 3 && |args| % 2 == 1 else |args| == meta[name])
      ==> Validate(CallText(name, args), meta) == Some(WrongParameterCount(name, |args|))
    ensures name in meta && (if name == "CASE" then |args| >= 3 && |args| % 2 == 1 else |args| == meta[name])
      ==> forall k: nat | FirstRejected(args, meta, k) ::
        Validate(CallText(name, args), meta) == Validate(args[k], meta)
  {
    hide Strip, Spans, Texts, ParseFunction, Argument, Arguments, CallText, Identifier;
    var f := CallText(name, args);
    OneCall(name, args);
    ArgumentIsChecked(f);
    SingleCall(f, |f|, meta, 1);
    ParamsAccepted(args, |f|, meta);
    forall k: nat | FirstRejected(args, meta, k) ensures ValidateParams(args, |f|, meta) == Validate(args[k], meta) {
      FirstParamDecides(args, |f|, meta, 1, k);
    }
  }

  /** The first argument with parentheses in it that the check rejects. */
  ghost predicate FirstRejected(args: seq<string>, meta: Metadata, k: nat) {
    && k < |args| && '(' in args[k] && Validate(args[k], meta).Some?
    && forall m | 0 <= m < k && '(' in args[m] :: Validate(args[m], meta) == None
  }

  lemma ArgumentIsChecked(f: string)
    requires Argument(f)
    ensures !Blank(f) && BalancedFrom(f, 0, 0)
  {
    ArgumentIsStripped(f);
    CheckedBalance(f);
  }

  /** A list of one parsed call is its count and its parameters. */
  lemma SingleCall(call: string, bound: nat, meta: Metadata, depth: int)
    requires |call| <= bound
    ensures var p := ParseFunction(call);
      p.name.Some? ==>
        && ValidateCalls([call], bound, meta) ==
          (if CountIssue(meta, p.name.value, |p.params|).Some? then CountIssue(meta, p.name.value, |p.params|)
           else ValidateParams(p.params, bound, meta))
        && WalkCalls([call], bound, meta, depth) ==
          if p.name.value !in meta then Some(UnsupportedFunction(p.name.value))
          else WalkParams(p.params, bound, meta, depth)
  {
    hide ParseFunction, CountIssue, ValidateParams, WalkParams;
    assert [call][1..] == [];
    assert ValidateCalls([], bound, meta) == None && WalkCalls([], bound, meta, depth) == None;
  }

  /** How the evaluation of a call fails: at once if the function is unknown, else as the first of its
      arguments that fails one level down. */
  lemma EvaluationOfCall(name: string, args: seq<string>, meta: Metadata, depth: int)
    requires Identifier(name) && Arguments(args)
    ensures depth <= 0 ==> Walk(CallText(name, args), meta, depth) == Some(RecursionLimit)
    ensures depth >= 1 && name !in meta ==> Walk(CallText(name, args), meta, depth) == Some(UnsupportedFunction(name))
    ensures depth >= 1 && name in meta ==> forall k: nat | FirstFailing(args, meta, depth - 1, k) ::
      Walk(CallText(name, args), meta, depth) == Walk(args[k], meta, depth - 1)
    ensures depth >= 1 && name in meta
        && (forall k | 0 <= k < |args| && '(' in args[k] :: Walk(args[k], meta, depth - 1) == None)
      ==> Walk(CallText(name, args), meta, depth) == None
  {
    hide Strip, Spans, Texts, ParseFunction, Argument, Arguments, CallText, Identifier;
    var f := CallText(name, args);
    OneCall(name, args);
    if depth >= 1 {
      SingleCall(f, |f|, meta, depth);
      forall k: nat | FirstFailing(args, meta, depth - 1, k)
        ensures WalkParams(args, |f|, meta, depth) == Walk(args[k], meta, depth - 1)
      {
        FirstParamDecides(args, |f|, meta, depth, k);
      }
      if forall k | 0 <= k < |args| && '(' in args[k] :: Walk(args[k], meta, depth - 1) == None {
        ParamsEvaluate(args, |f|, meta, depth);
      }
    }
  }

  ghost predicate FirstFailing(args: seq<string>, meta: Metadata, depth: int, k: nat) {
    && k < |args| && '(' in args[k] && Walk(args[k], meta, depth).Some?
    && forall m | 0 <= m < k && '(' in args[m] :: Walk(args[m], meta, depth) == None
  }

  lemma {:induction false} ParamsEvaluate(params: seq<string>, bound: nat, meta: Metadata, depth: int)
    requires forall k | 0 <= k < |params| :: |params[k]| < bound
    requires forall k | 0 <= k < |params| && '(' in Strip(params[k]) :: Walk(Strip(params[k]), meta, depth - 1) == None
    ensures WalkParams(params, bound, meta, depth) == None
  {
    hide Strip, Walk;
    if params != [] {
      ParamsEvaluate(params[1..], bound, meta, depth);
    }
  }

  // ----- the limit is sharp ---------------------------------------------------------------

  /** `name(name(...name(x)...))` with `k` calls. */
  function Nested(name: string, k: nat): string {
    if k == 0 then "x" else CallText(name, [Nested(name, k - 1)])
  }

  lemma {:induction false} NestedIsArgument(name: string, k: nat)
    requires Identifier(name)
    ensures Argument(Nested(name, k))
    ensures k > 0 ==> '(' in Nested(name, k)
  {
    if k == 0 {
      assert "x"[..0] == [] && "x"[..1] == "x";
    } else {
      var inner := Nested(name, k - 1);
      NestedIsArgument(name, k - 1);
      var f := Nested(name, k);
      WrappedIsArgument(name, inner);
      assert f == name + "(" + inner + ")" && f[|name|] == '(';
    }
  }

  /** One call more than the limit allows, and the evaluator gives up, however harmless. */
  lemma {:induction false} LimitIsSharp(name: string, meta: Metadata, k: nat, depth: nat)
    requires Identifier(name) && name in meta && depth >= 1
    ensures Walk(Nested(name, k), meta, depth) == (if k > depth then Some(RecursionLimit) else None)
    decreases k
  {
    hide Strip, Depth, Argument, Spans, Texts, ParseFunction, WalkCalls, CallText, Identifier;
    if k == 0 {
      WalkNoCalls("x", meta, depth);
    } else {
      var args := [Nested(name, k - 1)];
      NestedIsArgument(name, k - 1);
      EvaluationOfCall(name, args, meta, depth);
      if k > 1 {
        if depth > 1 {
          LimitIsSharp(name, meta, k - 1, depth - 1);
        }
        assert FirstFailing(args, meta, depth - 1, 0) || Walk(args[0], meta, depth - 1) == None;
      } else {
        assert '(' !in args[0];
      }
    }
  }

  /** A text without calls evaluates wherever the recursion may still go. */
  lemma WalkNoCalls(f: string, meta: Metadata, depth: nat)
    requires '(' !in f && depth >= 1
    ensures Walk(f, meta, depth) == None
  {
    hide Spans;
    NoCalls(f);
  }

  lemma ArgumentIsStripped(a: string)
    requires Argument(a)
    ensures Strip(a) == a
  {
    StripTrimmed(a);
  }

  lemma NoCalls(f: string)
    requires '(' !in f
    ensures Spans(f) == []
  {
    NoSpanInName(f, 0, |f|);
  }
}
