/** Finding and taking apart function calls in formula text (`extract_functions`,
    `parse_function`, `split_parameters`; api/formulas/evaluate_formula.py:121-183 and their
    copies in api/formulas/formula_validation.py:247-307), on ASCII text. */
module FormulaScan {
  import opened Prelude

  predicate IsSpace(c: char) { c == ' ' || '\t' <= c <= '\r' || ('\U{1C}' <= c <= '\U{1F}') }

  /** `isalnum() or '_'`, which is also `\w`. */
  predicate IsName(c: char) { '0' <= c <= '9' || 'a' <= c <= 'z' || 'A' <= c <= 'Z' || c == '_' }

  function StripLeft(s: string): (t: string)
    ensures |t| <= |s| && t == s[|s| - |t|..]
  {
    if s != [] && IsSpace(s[0]) then StripLeft(s[1..]) else s
  }

  function StripRight(s: string): (t: string)
    ensures |t| <= |s| && t == s[..|t|]
  {
    if s != [] && IsSpace(s[|s| - 1]) then StripRight(s[..|s| - 1]) else s
  }

  /** `str.strip()` */
  function Strip(s: string): (t: string)
    ensures |t| <= |s|
  {
    StripRight(StripLeft(s))
  }

  /** The ASCII codes of white space, and of letters, digits and the underscore. */
  lemma Characters(c: char)
    ensures IsSpace(c) <==> 9 <= c as int <= 13 || 28 <= c as int <= 32
    ensures IsName(c) <==>
      48 <= c as int <= 57 || 65 <= c as int <= 90 || c as int == 95 || 97 <= c as int <= 122
  {
  }

  predicate Blanks(s: string, from: nat, to: nat)
    requires from <= to <= |s|
  {
    forall i | from <= i < to :: IsSpace(s[i])
  }

  lemma BlanksCons(s: string, x: nat)
    requires s != [] && x < |s| && IsSpace(s[0]) && Blanks(s[1..], 0, x)
    ensures Blanks(s, 0, x + 1) && (x + 1 < |s| ==> s[x + 1] == s[1..][x])
  {
    hide IsSpace;
    assert forall i | 0 < i <= x :: s[i] == s[1..][i - 1];
  }

  lemma {:induction false} StrippedLeft(s: string)
    ensures var x := |s| - |StripLeft(s)|;
      Blanks(s, 0, x) && (x < |s| ==> !IsSpace(s[x]))
  {
    hide IsSpace;
    if s != [] && IsSpace(s[0]) {
      hide Blanks;
      StrippedLeft(s[1..]);
      BlanksCons(s, |s[1..]| - |StripLeft(s[1..])|);
    }
  }

  lemma {:induction false} StrippedRight(s: string)
    ensures var y := |StripRight(s)|;
      Blanks(s, y, |s|) && (y > 0 ==> !IsSpace(s[y - 1]))
  {
    hide IsSpace;
    if s != [] && IsSpace(s[|s| - 1]) {
      StrippedRight(s[..|s| - 1]);
    }
  }

  lemma BlanksInSuffix(s: string, x: nat, y: nat)
    requires x <= y <= |s| && Blanks(s[x..], y - x, |s| - x)
    ensures Blanks(s, y, |s|) && forall i | x <= i < |s| :: s[i] == s[x..][i - x]
  {
    hide IsSpace;
    assert forall i | y <= i < |s| :: s[i] == s[x..][i - x];
  }

  /** Stripping cuts all white space off both ends, and nothing else. */
  lemma StripMeans(s: string) returns (x: nat, y: nat)
    ensures x <= y <= |s| && Strip(s) == s[x..y] && Blanks(s, 0, x) && Blanks(s, y, |s|)
    ensures x < y ==> !IsSpace(s[x]) && !IsSpace(s[y - 1])
  {
    hide IsSpace, Blanks, StripLeft, StripRight;
    var t := StripLeft(s);
    StrippedLeft(s);
    StrippedRight(t);
    x := |s| - |t|;
    y := x + |StripRight(t)|;
    BlanksInSuffix(s, x, y);
  }

  // ----- parenthesis depth ----------------------------------------------------------------

  function Delta(c: char): int { if c == '(' then 1 else if c == ')' then -1 else 0 }

  /** Opening minus closing parentheses. */
  function Depth(s: string): int {
    if s == [] then 0 else Depth(s[..|s| - 1]) + Delta(s[|s| - 1])
  }

  /** No prefix closes more than it opened. */
  ghost predicate NeverNegative(s: string) {
    forall n | 0 <= n <= |s| :: Depth(s[..n]) >= 0
  }

  ghost predicate Balanced(s: string) { NeverNegative(s) && Depth(s) == 0 }

  lemma {:induction false} DepthConcat(a: string, b: string)
    ensures Depth(a + b) == Depth(a) + Depth(b)
  {
    if b == [] {
      assert a + b == a;
    } else {
      DepthConcat(a, b[..|b| - 1]);
      assert (a + b)[..|a + b| - 1] == a + b[..|b| - 1];
    }
  }

  // ----- extract_functions ----------------------------------------------------------------

  /** End of the name before position `i`: spaces are skipped backwards. */
  function NameEnd(f: string, i: nat): (e: nat)
    requires i <= |f|
    ensures e <= i && (forall m | e <= m < i :: IsSpace(f[m])) && (e == 0 || !IsSpace(f[e - 1]))
  {
    if i > 0 && IsSpace(f[i - 1]) then NameEnd(f, i - 1) else i
  }

  /** Start of the name that ends at `e`. */
  function NameStart(f: string, e: nat): (s: nat)
    requires e <= |f|
    ensures s <= e && (forall m | s <= m < e :: IsName(f[m])) && (s == 0 || !IsName(f[s - 1]))
  {
    if e > 0 && IsName(f[e - 1]) then NameStart(f, e - 1) else e
  }

  /** The first position from `k` on at which the depth returns to 0. */
  function Close(f: string, k: nat, depth: int): (c: Option<nat>)
    requires k <= |f|
    ensures c.Some? ==> k <= c.value < |f| && f[c.value] == ')'
    decreases |f| - k
  {
    if k == |f| then None
    else if f[k] == '(' then Close(f, k + 1, depth + 1)
    else if f[k] == ')' then if depth - 1 == 0 then Some(k) else Close(f, k + 1, depth - 1)
    else Close(f, k + 1, depth)
  }

  /** A call found in the text: name from `start`, opening parenthesis at `open`, end after the
      closing one. */
  datatype Span = Span(start: nat, open: nat, end: nat)

  /** The call whose opening parenthesis stands at `i`, if it has a name and is closed. */
  function SpanAt(f: string, i: nat): (s: Option<Span>)
    requires i < |f| && f[i] == '('
    ensures s.Some? ==> s.value.start < s.value.open == i < s.value.end <= |f|
  {
    var e := NameEnd(f, i);
    var start := NameStart(f, e);
    if start == e then None
    else match Close(f, i, 0) case None => None case Some(k) => Some(Span(start, i, k + 1))
  }

  function SpansFrom(f: string, i: nat): (spans: seq<Span>)
    requires i <= |f|
    decreases |f| - i
  {
    if i == |f| then []
    else if f[i] == '(' && SpanAt(f, i).Some? then [SpanAt(f, i).value] + SpansFrom(f, SpanAt(f, i).value.end)
    else SpansFrom(f, i + 1)
  }

  function Text(f: string, s: Span): string
    requires s.start <= s.end <= |f|
  {
    f[s.start..s.end]
  }

  ghost predicate InText(f: string, spans: seq<Span>) {
    forall k | 0 <= k < |spans| :: spans[k].start <= spans[k].end <= |f|
  }

  function Texts(f: string, spans: seq<Span>): seq<string>
    requires InText(f, spans)
  {
    seq(|spans|, k requires 0 <= k < |spans| => Text(f, spans[k]))
  }

  /** The spans of all calls that `extract_functions` finds. */
  function Spans(f: string): (spans: seq<Span>)
    ensures InText(f, spans)
  {
    SpansInText(f, 0);
    SpansFrom(f, 0)
  }

  lemma {:induction false} SpansInText(f: string, i: nat)
    requires i <= |f|
    ensures InText(f, SpansFrom(f, i))
    decreases |f| - i
  {
    if i < |f| {
      if f[i] == '(' && SpanAt(f, i).Some? {
        SpansInText(f, SpanAt(f, i).value.end);
      } else {
        SpansInText(f, i + 1);
      }
    }
  }

  /** The backward scan for the name before an opening parenthesis. */
  method NameBefore(f: string, i: nat) returns (nameStart: nat, nameEnd: nat)
    requires i <= |f|
    ensures nameEnd == NameEnd(f, i) && nameStart == NameStart(f, nameEnd)
  {
    var j := i - 1;
    while j >= 0 && IsSpace(f[j])
      invariant -1 <= j < i && NameEnd(f, j + 1) == NameEnd(f, i)
    {
      j := j - 1;
    }
    nameEnd := j + 1;
    while j >= 0 && IsName(f[j])
      invariant -1 <= j < nameEnd && NameStart(f, j + 1) == NameStart(f, nameEnd)
    {
      j := j - 1;
    }
    nameStart := j + 1;
  }

  /** The forward scan for the matching closing parenthesis. */
  method FindClose(f: string, i: nat) returns (c: Option<nat>)
    requires i <= |f|
    ensures c == Close(f, i, 0)
  {
    var depth, k := 0, i;
    while k < |f|
      invariant i <= k <= |f| && Close(f, k, depth) == Close(f, i, 0)
    {
      if f[k] == '(' {
        depth := depth + 1;
      } else if f[k] == ')' {
        depth := depth - 1;
        if depth == 0 {
          return Some(k);
        }
      }
      k := k + 1;
    }
    return None;
  }

  lemma TextsSnoc(f: string, spans: seq<Span>, s: Span)
    requires InText(f, spans) && s.start <= s.end <= |f|
    ensures InText(f, spans + [s]) && Texts(f, spans + [s]) == Texts(f, spans) + [Text(f, s)]
  {
  }

  /** A position where no call opens adds nothing ... */
  lemma SpansSkip(f: string, i: nat)
    requires i < |f| && !(f[i] == '(' && SpanAt(f, i).Some?)
    ensures SpansFrom(f, i) == SpansFrom(f, i + 1)
  {
  }

  /** ... and one where a call opens adds that call. */
  lemma SpansTake(f: string, i: nat, found: seq<Span>)
    requires i < |f| && f[i] == '(' && SpanAt(f, i).Some?
    ensures var s := SpanAt(f, i).value; found + SpansFrom(f, i) == found + [s] + SpansFrom(f, s.end)
  {
    hide SpanAt;
    assert found + ([SpanAt(f, i).value] + SpansFrom(f, SpanAt(f, i).value.end))
      == found + [SpanAt(f, i).value] + SpansFrom(f, SpanAt(f, i).value.end);
  }

  method ExtractFunctions(f: string) returns (functions: seq<string>)
    ensures functions == Texts(f, Spans(f))
  {
    hide Close, NameEnd, NameStart, Texts, InText, Spans, SpansFrom, IsSpace, IsName;
    NoTexts(f);
    functions := [];
    ghost var found: seq<Span> := [];
    var n, i := |f|, 0;
    while i < n
      invariant 0 <= i <= n && InText(f, found) && functions == Texts(f, found)
      invariant found + SpansFrom(f, i) == SpansFrom(f, 0)
    {
      if f[i] == '(' {
        var nameStart, nameEnd := NameBefore(f, i);
        if nameStart == nameEnd {
          SpansSkip(f, i);
          i := i + 1;
          continue;
        }
        var k := FindClose(f, i);
        if k.None? {
          SpansSkip(f, i);
        } else {
          SpansTake(f, i, found);
          TextsSnoc(f, found, Span(nameStart, i, k.value + 1));
          functions := functions + [f[nameStart..k.value + 1]];
          found := found + [Span(nameStart, i, k.value + 1)];
          i := k.value;
        }
      } else {
        SpansSkip(f, i);
      }
      i := i + 1;
    }
    SpansAtEnd(f);
    assert found == SpansFrom(f, 0) == Spans(f) by {
      assert found + [] == found;
      SpansDefinition(f);
    }
  }

  lemma NoTexts(f: string)
    ensures InText(f, []) && Texts(f, []) == []
  {
  }

  lemma SpansAtEnd(f: string)
    ensures SpansFrom(f, |f|) == []
  {
  }

  lemma SpansDefinition(f: string)
    ensures Spans(f) == SpansFrom(f, 0)
  {
  }

  // ----- parse_function and split_parameters ----------------------------------------------

  /** Length of the leading run of name characters. */
  function NameLength(s: string): (n: nat)
    ensures n <= |s| && (forall m | 0 <= m < n :: IsName(s[m])) && (n < |s| ==> !IsName(s[n]))
  {
    if s != [] && IsName(s[0]) then 1 + NameLength(s[1..]) else 0
  }

  /** Where the pattern's final parenthesis matches: at the end, or before one last newline. */
  function LastClosing(s: string): Option<nat> {
    if |s| >= 1 && s[|s| - 1] == ')' then Some(|s| - 1)
    else if |s| >= 2 && s[|s| - 1] == '\n' && s[|s| - 2] == ')' then Some(|s| - 2)
    else None
  }

  /** The argument text between the parentheses of `name(...)`. */
  function Inner(s: string): Option<string> {
    var n := NameLength(s);
    match LastClosing(s)
    case None => None
    case Some(last) => if n >= 1 && n < last && s[n] == '(' then Some(s[n + 1..last]) else None
  }

  datatype Parsed = Parsed(name: Option<string>, params: seq<string>)

  function ParseFunction(s: string): (p: Parsed)
    ensures forall k | 0 <= k < |p.params| :: |p.params[k]| < |s|
  {
    match Inner(s)
    case None => Parsed(None, [])
    case Some(inner) => Parsed(Some(s[..NameLength(s)]), SplitParameters(Strip(inner)))
  }

  /** Pieces from `start`, the scan standing at `i` with `depth` open parentheses. */
  function SplitFrom(s: string, start: nat, i: nat, depth: nat): (params: seq<string>)
    requires start <= i <= |s|
    ensures forall k | 0 <= k < |params| :: |params[k]| <= |s|
    decreases |s| - i
  {
    if i == |s| then [Strip(s[start..])]
    else if s[i] == ',' && depth == 0 then [Strip(s[start..i])] + SplitFrom(s, i + 1, i + 1, depth)
    else if s[i] == '(' then SplitFrom(s, start, i + 1, depth + 1)
    else if s[i] == ')' && depth > 0 then SplitFrom(s, start, i + 1, depth - 1)
    else SplitFrom(s, start, i + 1, depth)
  }

  function SplitParameters(s: string): (params: seq<string>)
    ensures forall k | 0 <= k < |params| :: |params[k]| <= |s|
  {
    if Strip(s) == [] then [] else SplitFrom(s, 0, 0, 0)
  }

  // ----- what parsing and splitting yield, on any text ---------------------------------------

  /** The least depth that a prefix reaches. */
  function Lowest(s: string): (d: int)
    ensures d <= 0 && d <= Depth(s)
  {
    if s == [] then 0
    else
      var before := Lowest(s[..|s| - 1]);
      if Depth(s) < before then Depth(s) else before
  }

  /** Opening parentheses not closed by the end of the text; closing ones without a partner count
      for nothing. */
  function OpenAt(s: string, i: nat): (d: nat)
    requires i <= |s|
  {
    Depth(s[..i]) - Lowest(s[..i])
  }

  lemma OpenNext(s: string, i: nat)
    requires i < |s|
    ensures OpenAt(s, i + 1) == if s[i] == '(' then OpenAt(s, i) + 1
      else if s[i] == ')' && OpenAt(s, i) > 0 then OpenAt(s, i) - 1 else OpenAt(s, i)
  {
    assert s[..i + 1][..i] == s[..i];
  }

  /** These are, in order, the commas from `i` on that stand outside all parentheses. */
  ghost predicate TopCommas(s: string, i: nat, cuts: seq<nat>) {
    && (forall j: nat :: j in cuts <==> i <= j < |s| && s[j] == ',' && OpenAt(s, j) == 0)
    && (forall j, l :: 0 <= j < l < |cuts| ==> cuts[j] < cuts[l])
    && forall j | 0 <= j < |cuts| :: i <= cuts[j] < |s|
  }

  /** The stripped pieces of the text from `start` on, cut at these positions. */
  function PiecesOf(s: string, start: nat, cuts: seq<nat>): seq<string>
    requires start <= |s| && forall j | 0 <= j < |cuts| :: start <= cuts[j] < |s|
    requires forall j, l :: 0 <= j < l < |cuts| ==> cuts[j] < cuts[l]
    decreases |cuts|
  {
    if cuts == [] then [Strip(s[start..])]
    else [Strip(s[start..cuts[0]])] + PiecesOf(s, cuts[0] + 1, cuts[1..])
  }

  lemma TopCommasNext(s: string, i: nat, cuts: seq<nat>)
    requires i < |s| && TopCommas(s, i + 1, cuts)
    ensures TopCommas(s, i, if s[i] == ',' && OpenAt(s, i) == 0 then [i] + cuts else cuts)
  {
    hide OpenAt;
  }

  lemma NoTopCommas(s: string)
    ensures TopCommas(s, |s|, [])
  {
    hide OpenAt;
  }

  lemma PiecesOfNext(s: string, start: nat, i: nat, cuts: seq<nat>)
    requires start <= i < |s| && forall j | 0 <= j < |cuts| :: i < cuts[j] < |s|
    requires forall j, l :: 0 <= j < l < |cuts| ==> cuts[j] < cuts[l]
    ensures PiecesOf(s, start, [i] + cuts) == [Strip(s[start..i])] + PiecesOf(s, i + 1, cuts)
  {
    hide Strip;
    assert ([i] + cuts)[1..] == cuts;
  }

  /** The pieces are the stripped texts between the commas that stand outside all parentheses. */
  lemma {:induction false} PiecesBetweenCommas(s: string, start: nat, i: nat) returns (cuts: seq<nat>)
    requires start <= i <= |s|
    ensures TopCommas(s, i, cuts) && SplitFrom(s, start, i, OpenAt(s, i)) == PiecesOf(s, start, cuts)
    decreases |s| - i
  {
    hide Strip, OpenAt;
    if i == |s| {
      cuts := [];
      NoTopCommas(s);
      assert s[start..] == s[start..|s|];
    } else {
      OpenNext(s, i);
      if s[i] == ',' && OpenAt(s, i) == 0 {
        var later := PiecesBetweenCommas(s, i + 1, i + 1);
        cuts := [i] + later;
        TopCommasNext(s, i, later);
        PiecesOfNext(s, start, i, later);
      } else {
        cuts := PiecesBetweenCommas(s, start, i + 1);
        TopCommasNext(s, i, cuts);
      }
    }
  }

  /** A text parses as a call exactly if it is a name, directly followed by something in parentheses
      and at most one newline; the parameters are the pieces of what stands in the parentheses. */
  lemma ParsesExactly(s: string, name: string)
    ensures ParseFunction(s).name == Some(name) <==>
      Identifier(name) && exists inner, tail ::
        tail in ["", "\n"] && s == name + "(" + inner + ")" + tail
    ensures ParseFunction(s).name == None ==> ParseFunction(s).params == []
    ensures forall inner, tail | Identifier(name) && tail in ["", "\n"] && s == name + "(" + inner + ")" + tail ::
      ParseFunction(s).params == SplitParameters(Strip(inner))
  {
    hide Strip, SplitParameters, IsName;
    forall inner, tail | Identifier(name) && tail in ["", "\n"] && s == name + "(" + inner + ")" + tail
      ensures ParseFunction(s) == Parsed(Some(name), SplitParameters(Strip(inner)))
    {
      ShapeParses(name, inner, tail);
    }
    if ParseFunction(s).name == Some(name) {
      var n, last := NameLength(s), LastClosing(s).value;
      var tail := s[last + 1..];
      assert if last == |s| - 1 then tail == "" else tail == "\n";
      assert s == name + "(" + Inner(s).value + ")" + tail && tail in ["", "\n"];
    }
  }

  lemma ShapeParses(name: string, inner: string, tail: string)
    requires Identifier(name) && tail in ["", "\n"]
    ensures ParseFunction(name + "(" + inner + ")" + tail) == Parsed(Some(name), SplitParameters(Strip(inner)))
  {
    hide Strip, SplitParameters;
    var s, n := name + "(" + inner + ")" + tail, |name|;
    assert forall m | 0 <= m < n :: s[m] == name[m];
    NameLengthAt(s, n);
    assert LastClosing(s) == Some(n + 1 + |inner|);
    assert s[n + 1..n + 1 + |inner|] == inner && s[..n] == name;
  }

  method SplitParametersLoop(s: string) returns (params: seq<string>)
    ensures params == SplitParameters(s)
  {
    hide Strip;
    if Strip(s) == [] {
      return [];
    }
    params := [];
    var stack: seq<char> := [];
    var start := 0;
    for i := 0 to |s|
      invariant start <= i && params + SplitFrom(s, start, i, |stack|) == SplitFrom(s, 0, 0, 0)
    {
      var c := s[i];
      if c == ',' && stack == [] {
        params := params + [Strip(s[start..i])];
        start := i + 1;
      } else if c == '(' {
        stack := stack + [c];
      } else if c == ')' && stack != [] {
        stack := stack[..|stack| - 1];
      }
    }
    params := params + [Strip(s[start..])];
  }

  // ----- what is extracted ----------------------------------------------------------------

  /** `f[i..k + 1]` opens at `i` and is closed by `k`, not earlier. */
  ghost predicate Enclosed(f: string, i: nat, k: nat)
    requires i <= k < |f|
  {
    Depth(f[i..k + 1]) == 0 && forall m | i < m <= k :: Depth(f[i..m]) >= 1
  }

  lemma DepthNext(f: string, i: nat, k: nat)
    requires i <= k < |f|
    ensures Depth(f[i..k + 1]) == Depth(f[i..k]) + Delta(f[k])
  {
    assert f[i..k + 1][..k - i] == f[i..k];
  }

  lemma {:induction false} CloseSound(f: string, i: nat, k: nat, depth: int)
    requires i <= k <= |f| && i < |f| && f[i] == '(' && depth == Depth(f[i..k])
    requires forall m | i < m <= k :: Depth(f[i..m]) >= 1
    requires Close(f, k, depth).Some?
    ensures Enclosed(f, i, Close(f, k, depth).value)
    decreases |f| - k
  {
    if k < |f| {
      DepthNext(f, i, k);
      if !(f[k] == ')' && depth - 1 == 0) {
        CloseSound(f, i, k + 1, depth + Delta(f[k]));
      }
    }
  }

  lemma {:induction false} CloseComplete(f: string, i: nat, k: nat, depth: int, c: nat)
    requires i <= k <= c < |f| && i < c && f[i] == '(' && depth == Depth(f[i..k]) && Enclosed(f, i, c)
    ensures Close(f, k, depth) == Some(c)
    decreases |f| - k
  {
    DepthNext(f, i, k);
    if k < c {
      assert Depth(f[i..k + 1]) >= 1;
      CloseComplete(f, i, k + 1, depth + Delta(f[k]), c);
    } else {
      assert Depth(f[i..k]) >= 1;
    }
  }

  /** Name characters from `start` to `e`, then spaces up to `open`. */
  ghost predicate NameThenSpaces(f: string, start: nat, e: nat, open: nat)
    requires open <= |f|
  {
    && start < e <= open
    && (forall m | start <= m < e :: IsName(f[m])) && forall m | e <= m < open :: IsSpace(f[m])
  }

  /** A name that nothing lengthens to the left, spaces, and an enclosed argument text. */
  ghost predicate IsCall(f: string, s: Span) {
    && s.start < s.open < s.end <= |f| && f[s.open] == '(' && Enclosed(f, s.open, s.end - 1)
    && (s.start == 0 || !IsName(f[s.start - 1]))
    && exists e :: NameThenSpaces(f, s.start, e, s.open)
  }

  /** All spans are calls, from `barrier` on, each after the end of the one before. */
  ghost predicate CallsInOrder(f: string, barrier: nat, spans: seq<Span>) {
    && (forall k | 0 <= k < |spans| :: IsCall(f, spans[k]) && spans[k].start >= barrier)
    && forall k, l :: 0 <= k < l < |spans| ==> spans[k].end <= spans[l].start
  }

  lemma SpanIsCall(f: string, barrier: nat, i: nat)
    requires barrier <= i < |f| && f[i] == '(' && SpanAt(f, i).Some?
    requires barrier == 0 || f[barrier - 1] == ')'
    ensures IsCall(f, SpanAt(f, i).value) && SpanAt(f, i).value.start >= barrier
    ensures f[SpanAt(f, i).value.end - 1] == ')'
  {
    assert f[i..i] == [];
    CloseSound(f, i, i, 0);
    var e := NameEnd(f, i);
    assert NameThenSpaces(f, NameStart(f, e), e, i);
    if barrier > 0 {
      assert !IsSpace(f[barrier - 1]) && !IsName(f[barrier - 1]);
      assert NameStart(f, e) >= barrier;
    }
  }

  lemma CallBounds(f: string, s: Span)
    requires IsCall(f, s)
    ensures s.start < s.open < s.end <= |f|
  {
  }

  /** On any text the extracted pieces are paren-matched calls, disjoint and left to right. */
  lemma {:induction false} SpansAreCallsInOrder(f: string, barrier: nat, i: nat)
    requires barrier <= i <= |f| && (barrier == 0 || f[barrier - 1] == ')')
    ensures CallsInOrder(f, barrier, SpansFrom(f, i))
    decreases |f| - i
  {
    hide IsCall, SpanAt;
    if i < |f| {
      if f[i] == '(' && SpanAt(f, i).Some? {
        var s := SpanAt(f, i).value;
        SpanIsCall(f, barrier, i);
        CallBounds(f, s);
        SpansAreCallsInOrder(f, s.end, s.end);
        var later := SpansFrom(f, s.end);
        assert SpansFrom(f, i) == [s] + later;
      } else {
        SpansAreCallsInOrder(f, barrier, i + 1);
      }
    }
  }

  /** Some span opens at `i` and ends after `k`, or has `i` strictly inside. */
  ghost predicate Covered(spans: seq<Span>, i: nat, k: nat) {
    exists s :: s in spans && if s.open == i then s.end == k + 1 else s.open < i < s.end - 1
  }

  lemma NamedSpanAt(f: string, i: nat, k: nat, start: nat, e: nat)
    requires i <= k < |f| && f[i] == '(' && Enclosed(f, i, k) && NameThenSpaces(f, start, e, i)
    ensures SpanAt(f, i).Some? && SpanAt(f, i).value.open == i && SpanAt(f, i).value.end == k + 1
  {
    hide Enclosed;
    EmptyDepth(f, i);
    if k == i {
      OpenIsNotEnclosed(f, i);
    }
    CloseComplete(f, i, i, 0, k);
    assert IsName(f[e - 1]) && !IsSpace(f[e - 1]);
    assert NameEnd(f, i) == e;
  }

  lemma OpenIsNotEnclosed(f: string, i: nat)
    requires i < |f| && f[i] == '('
    ensures !Enclosed(f, i, i)
  {
    EmptyDepth(f, i);
    DepthNext(f, i, i);
  }

  /** Conversely, in any text each opening parenthesis that follows a name, with or without spaces in
      between, and is closed at `k`, opens an extracted piece that ends there or lies inside one. */
  lemma {:induction false} EveryCallIsCovered(f: string, from: nat, i: nat, k: nat, start: nat, e: nat)
    requires from <= i <= k < |f| && f[i] == '(' && Enclosed(f, i, k) && NameThenSpaces(f, start, e, i)
    ensures Covered(SpansFrom(f, from), i, k)
    decreases |f| - from
  {
    hide Enclosed, SpanAt, NameThenSpaces;
    NamedSpanAt(f, i, k, start, e);
    if f[from] == '(' && SpanAt(f, from).Some? {
      var s := SpanAt(f, from).value;
      assert s in SpansFrom(f, from);
      SpanIsCall(f, 0, from);
      if i > from && i >= s.end {
        EveryCallIsCovered(f, s.end, i, k, start, e);
        CoveredLater(SpansFrom(f, s.end), s, i, k);
      } else if i > from {
        assert f[s.end - 1] == ')';
      }
    } else {
      EveryCallIsCovered(f, from + 1, i, k, start, e);
    }
  }

  lemma CoveredLater(later: seq<Span>, s: Span, i: nat, k: nat)
    requires Covered(later, i, k)
    ensures Covered([s] + later, i, k)
  {
    var t :| t in later && if t.open == i then t.end == k + 1 else t.open < i < t.end - 1;
    assert t in [s] + later;
  }

  // ----- the text of a call and back ------------------------------------------------------

  function Join(args: seq<string>): string {
    if args == [] then ""
    else if |args| == 1 then args[0]
    else args[0] + "," + Join(args[1..])
  }

  function CallText(name: string, args: seq<string>): string { name + "(" + Join(args) + ")" }

  predicate Identifier(name: string) {
    name != "" && forall m | 0 <= m < |name| :: IsName(name[m])
  }

  /** Non-empty, trimmed, balanced, and without a comma outside parentheses. */
  ghost predicate Argument(a: string) {
    && a != "" && !IsSpace(a[0]) && !IsSpace(a[|a| - 1]) && Balanced(a)
    && forall m | 0 <= m < |a| && a[m] == ',' :: Depth(a[..m]) > 0
  }

  ghost predicate Arguments(args: seq<string>) {
    forall k | 0 <= k < |args| :: Argument(args[k])
  }

  lemma BalancedConcat(a: string, b: string)
    requires Balanced(a) && Balanced(b)
    ensures Balanced(a + b)
  {
    DepthConcat(a, b);
    forall n | 0 <= n <= |a + b| ensures Depth((a + b)[..n]) >= 0 {
      if n <= |a| {
        assert (a + b)[..n] == a[..n];
      } else {
        assert (a + b)[..n] == a + b[..n - |a|];
        DepthConcat(a, b[..n - |a|]);
      }
    }
  }

  lemma {:induction false} JoinBalanced(args: seq<string>)
    requires Arguments(args)
    ensures Balanced(Join(args)) && (args == [] ==> Join(args) == "")
    ensures args != [] ==> Join(args) != "" && !IsSpace(Join(args)[0]) && !IsSpace(Join(args)[|Join(args)| - 1])
  {
    if |args| == 1 {
      assert Argument(args[0]);
    } else if |args| > 1 {
      JoinBalanced(args[1..]);
      assert Argument(args[0]);
      assert Balanced(",") by {
        assert ","[..0] == [] && ","[..1] == ",";
      }
      BalancedConcat(args[0], ",");
      BalancedConcat(args[0] + ",", Join(args[1..]));
    }
  }

  lemma StripTrimmed(s: string)
    requires s == "" || (!IsSpace(s[0]) && !IsSpace(s[|s| - 1]))
    ensures Strip(s) == s
  {
  }

  /** Scanning over one argument meets no separator and ends at the depth it began with. */
  lemma {:induction false} ScanArgument(s: string, start: nat, a: string, m: nat)
    requires start + |a| <= |s| && s[start..start + |a|] == a && Argument(a) && m <= |a|
    ensures Depth(a[..m]) >= 0
    ensures SplitFrom(s, start, start + m, Depth(a[..m])) == SplitFrom(s, start, start + |a|, 0)
    decreases |a| - m
  {
    hide Depth, Strip, IsSpace;
    if m < |a| {
      DepthNext(a, 0, m);
      assert a[0..m] == a[..m] && a[0..m + 1] == a[..m + 1] && s[start + m] == a[m];
      assert Depth(a[..m + 1]) >= 0;
      ScanArgument(s, start, a, m + 1);
    } else {
      assert a[..m] == a;
    }
  }

  /** An argument followed by a comma is the next piece ... */
  lemma SplitStep(s: string, start: nat, a: string)
    requires Argument(a) && start + |a| < |s| && s[start..start + |a|] == a && s[start + |a|] == ','
    ensures SplitFrom(s, start, start, 0) == [a] + SplitFrom(s, start + |a| + 1, start + |a| + 1, 0)
  {
    hide Depth, Strip;
    assert a[..0] == a[0..0] && s[start..start + |a|] == a;
    EmptyDepth(a, 0);
    ScanArgument(s, start, a, 0);
    StripTrimmed(a);
  }

  /** ... and one that ends the text the last. */
  lemma SplitLast(s: string, start: nat, a: string)
    requires Argument(a) && start + |a| == |s| && s[start..] == a
    ensures SplitFrom(s, start, start, 0) == [a]
  {
    hide Depth, Strip;
    assert a[..0] == a[0..0] && s[start..start + |a|] == a;
    EmptyDepth(a, 0);
    ScanArgument(s, start, a, 0);
    StripTrimmed(a);
  }

  lemma {:induction false} SplitJoin(pre: string, args: seq<string>)
    requires args != [] && Arguments(args)
    ensures SplitFrom(pre + Join(args), |pre|, |pre|, 0) == args
    decreases |args|
  {
    hide SplitFrom, Argument;
    var s, a := pre + Join(args), args[0];
    assert Argument(a);
    if |args| == 1 {
      SplitLast(s, |pre|, a);
    } else {
      var rest := args[1..];
      JoinedTail(pre, args);
      SplitStep(s, |pre|, a);
      SplitJoin(pre + a + ",", rest);
    }
  }

  lemma JoinedTail(pre: string, args: seq<string>)
    requires |args| > 1
    ensures var s, a := pre + Join(args), args[0];
      && |pre| + |a| < |s| && s[|pre|..|pre| + |a|] == a && s[|pre| + |a|] == ','
      && s == pre + a + "," + Join(args[1..])
  {
  }

  lemma {:induction false} NameLengthAt(s: string, n: nat)
    requires n < |s| && (forall m | 0 <= m < n :: IsName(s[m])) && !IsName(s[n])
    ensures NameLength(s) == n
  {
    if n > 0 {
      NameLengthAt(s[1..], n - 1);
    }
  }

  lemma {:induction false} NoSpanInName(f: string, i: nat, n: nat)
    requires i <= n <= |f| && forall m | i <= m < n :: f[m] != '('
    ensures SpansFrom(f, i) == SpansFrom(f, n)
    decreases n - i
  {
    if i < n {
      NoSpanInName(f, i + 1, n);
    }
  }

  lemma DepthInside(f: string, i: nat, inner: string, m: nat)
    requires i <= |f| && f[i..] == "(" + inner + ")" && m <= |inner|
    ensures Depth(f[i..i + 1 + m]) == 1 + Depth(inner[..m])
  {
    assert f[i..i + 1 + m] == "(" + inner[..m];
    assert "("[..0] == [];
    DepthConcat("(", inner[..m]);
  }

  lemma WrappedIsEnclosed(f: string, i: nat, inner: string)
    requires i <= |f| && f[i..] == "(" + inner + ")" && Balanced(inner)
    ensures f[i] == '(' && Enclosed(f, i, |f| - 1)
  {
    hide Depth;
    forall m | i < m <= |f| - 1 ensures Depth(f[i..m]) >= 1 {
      DepthInside(f, i, inner, m - i - 1);
      assert Depth(inner[..m - i - 1]) >= 0;
    }
    assert f[i] == f[i..][0] && f[|f| - 1] == f[i..][|f| - 1 - i];
    DepthInside(f, i, inner, |inner|);
    assert inner[..|inner|] == inner;
    DepthNext(f, i, |f| - 1);
  }

  lemma WrappedSpanAt(f: string, n: nat, inner: string)
    requires 1 <= n <= |f| && Identifier(f[..n]) && f[n..] == "(" + inner + ")" && Balanced(inner)
    ensures n < |f| && f[n] == '(' && SpanAt(f, n) == Some(Span(0, n, |f|))
  {
    hide Depth, Enclosed, Close, Balanced;
    WrappedIsEnclosed(f, n, inner);
    assert forall m | 0 <= m < n :: f[m] == f[..n][m];
    EmptyDepth(f, n);
    CloseComplete(f, n, n, 0, |f| - 1);
    NameFromStart(f, n);
    assert NameEnd(f, n) == n;
  }

  /** A name directly before balanced text in parentheses is found as one call. */
  lemma WrappedIsOneSpan(f: string, n: nat, inner: string)
    requires 1 <= n <= |f| && Identifier(f[..n]) && f[n..] == "(" + inner + ")" && Balanced(inner)
    ensures SpansFrom(f, 0) == [Span(0, n, |f|)]
  {
    WrappedSpanAt(f, n, inner);
    assert forall m | 0 <= m < n :: f[m] == f[..n][m];
    hide Balanced, SpansFrom, SpanAt;
    NoSpanInName(f, 0, n);
    SpansTake(f, n, []);
    SpansAtEnd(f);
  }

  lemma EmptyDepth(f: string, n: nat)
    requires n <= |f|
    ensures Depth(f[n..n]) == 0
  {
    assert f[n..n] == [];
  }

  lemma ArgumentsSplit(args: seq<string>)
    requires Arguments(args)
    ensures SplitParameters(Strip(Join(args))) == args
  {
    hide Join, Arguments, Strip, SplitFrom, IsSpace, Depth, Balanced;
    JoinBalanced(args);
    StripTrimmed(Join(args));
    if args != [] {
      SplitJoin("", args);
      assert "" + Join(args) == Join(args);
    }
  }

  lemma CallTextParses(name: string, args: seq<string>)
    requires Identifier(name) && Arguments(args)
    ensures ParseFunction(CallText(name, args)) == Parsed(Some(name), args)
  {
    hide Join, Arguments, ParseFunction, SplitParameters, Strip, Identifier;
    ArgumentsSplit(args);
    ShapeParses(name, Join(args), "");
    assert CallText(name, args) + "" == CallText(name, args);
  }

  /** The text of a call is found as one piece, and parsed back to its name and arguments. */
  lemma CallTextRoundTrip(name: string, args: seq<string>)
    requires Identifier(name) && Arguments(args)
    ensures Texts(CallText(name, args), Spans(CallText(name, args))) == [CallText(name, args)]
    ensures ParseFunction(CallText(name, args)) == Parsed(Some(name), args)
  {
    hide Join, Arguments, ParseFunction, SpansFrom, Balanced;
    var f, n := CallText(name, args), |name|;
    CallTextParses(name, args);
    JoinBalanced(args);
    assert f[..n] == name && f[n..] == "(" + Join(args) + ")";
    WrappedIsOneSpan(f, n, Join(args));
    assert f[0..|f|] == f;
  }

  lemma {:induction false} NameFromStart(f: string, e: nat)
    requires e <= |f| && forall m | 0 <= m < e :: IsName(f[m])
    ensures NameStart(f, e) == 0
  {
    if e > 0 {
      NameFromStart(f, e - 1);
    }
  }
}
