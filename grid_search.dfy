/** `get_total_iterations` (src/utils.py): the number of points of a
    hyperparameter grid, read from a `.hyper` file one line at a time.

    The file is given as its lines. Each line is stripped and split on single
    spaces; a line with fewer than three tokens is skipped; otherwise the tokens
    from the third on are concatenated and handed to Python's `eval`, whose
    `len` is one factor of the product. `eval` itself is not modelled: the
    caller supplies `card`, the cardinality of a range expression, or `Raises`
    when evaluating it or taking its length raises. */
module GridSearch {

  datatype Eval = Length(n: nat) | Raises

  /** What `get_total_iterations` returns or raises. `EvalError` is the error
      of the first range expression whose evaluation raised; `EmptyReduce` is
      the `TypeError` of `reduce` on an empty list without an initial value. */
  datatype Outcome = Total(n: nat) | EvalError(expr: string) | EmptyReduce

  /** The characters for which Python's `str.isspace` holds; `str.strip()`
      without arguments removes exactly these from both ends. */
  predicate IsSpace(c: char)
  {
    || '\t' <= c <= '\r'                    // \t \n \v \f \r
    || '\U{001C}' <= c <= '\U{001F}'         // file, group, record and unit separators
    || c == ' ' || c == '\U{0085}' || c == '\U{00A0}' || c == '\U{1680}'
    || '\U{2000}' <= c <= '\U{200A}'
    || c == '\U{2028}' || c == '\U{2029}' || c == '\U{202F}' || c == '\U{205F}' || c == '\U{3000}'
  }

  /** `s.lstrip()`. */
  function StripLeft(s: string): string
    decreases |s|
  {
    if s != [] && IsSpace(s[0]) then StripLeft(s[1..]) else s
  }

  /** `s.rstrip()`. */
  function StripRight(s: string): string
    decreases |s|
  {
    if s != [] && IsSpace(s[|s| - 1]) then StripRight(s[..|s| - 1]) else s
  }

  /** `s.strip()`. */
  function Strip(s: string): string
  {
    StripRight(StripLeft(s))
  }

  /** Leading whitespace removed: a suffix of `s`, everything cut off is
      whitespace, and what is left does not start with whitespace. */
  lemma {:induction false} StripLeftSpec(s: string)
    ensures |StripLeft(s)| <= |s| && StripLeft(s) == s[|s| - |StripLeft(s)|..]
    ensures forall k :: 0 <= k < |s| - |StripLeft(s)| ==> IsSpace(s[k])
    ensures StripLeft(s) != [] ==> !IsSpace(StripLeft(s)[0])
    decreases |s|
  {
    if s != [] && IsSpace(s[0]) {
      StripLeftSpec(s[1..]);
      forall k | 1 <= k < |s| - |StripLeft(s)| ensures IsSpace(s[k]) {
        assert s[k] == s[1..][k - 1];
      }
    }
  }

  /** Trailing whitespace removed: a prefix of `s`, everything cut off is
      whitespace, and what is left does not end with whitespace. */
  lemma {:induction false} StripRightSpec(s: string)
    ensures |StripRight(s)| <= |s| && StripRight(s) == s[..|StripRight(s)|]
    ensures forall k :: |StripRight(s)| <= k < |s| ==> IsSpace(s[k])
    ensures StripRight(s) != [] ==> !IsSpace(StripRight(s)[|StripRight(s)| - 1])
    decreases |s|
  {
    if s != [] && IsSpace(s[|s| - 1]) {
      var init := s[..|s| - 1];
      StripRightSpec(init);
      forall k | |StripRight(s)| <= k < |s| - 1 ensures IsSpace(s[k]) {
        assert s[k] == init[k];
      }
    }
  }

  /** `s.strip()` is the infix `s[lo..lo + |r|]` left after cutting whitespace
      from both ends; it neither starts nor ends with whitespace. */
  lemma StripSpec(s: string)
    ensures |StripLeft(s)| <= |s|
    ensures var r, lo := Strip(s), |s| - |StripLeft(s)|;
            && lo + |r| <= |s| && r == s[lo..lo + |r|]
            && (forall k :: 0 <= k < lo ==> IsSpace(s[k]))
            && (forall k :: lo + |r| <= k < |s| ==> IsSpace(s[k]))
            && (r != [] ==> !IsSpace(r[0]) && !IsSpace(r[|r| - 1]))
  {
    var t := StripLeft(s);
    var r := StripRight(t);
    StripLeftSpec(s);
    StripRightSpec(t);
    var lo := |s| - |t|;
    assert r == s[lo..lo + |r|];
    forall k | lo + |r| <= k < |s| ensures IsSpace(s[k]) {
      assert s[k] == t[k - lo];
    }
    assert r != [] ==> r[0] == t[0];
  }

  /** `s.split(" ")`: the pieces between single spaces, empty pieces included;
      the empty string gives one empty token. */
  function Split(s: string): (r: seq<string>)
    ensures |r| >= 1
    decreases |s|
  {
    if s == [] then [""]
    else if s[0] == ' ' then [""] + Split(s[1..])
    else var rest := Split(s[1..]); [[s[0]] + rest[0]] + rest[1..]
  }

  /** `" ".join(ts)`, the inverse of `Split`. */
  function JoinSpaced(ts: seq<string>): string
    requires |ts| >= 1
    decreases |ts|
  {
    if |ts| == 1 then ts[0] else ts[0] + " " + JoinSpaced(ts[1..])
  }

  /** `"".join(ts)`. */
  function Concat(ts: seq<string>): string
    decreases |ts|
  {
    if ts == [] then "" else ts[0] + Concat(ts[1..])
  }

  function CountSpaces(s: string): nat
    decreases |s|
  {
    if s == [] then 0 else (if s[0] == ' ' then 1 else 0) + CountSpaces(s[1..])
  }

  /** Splitting yields one token more than there are spaces, and no token
      contains a space. */
  lemma {:induction false} SplitShape(s: string)
    ensures |Split(s)| == CountSpaces(s) + 1
    ensures forall i :: 0 <= i < |Split(s)| ==> ' ' !in Split(s)[i]
    decreases |s|
  {
    if s != [] {
      SplitShape(s[1..]);
      if s[0] != ' ' {
        var rest := Split(s[1..]);
        assert Split(s) == [[s[0]] + rest[0]] + rest[1..];
        forall i | 0 <= i < |Split(s)| ensures ' ' !in Split(s)[i] {
          if i > 0 {
            assert Split(s)[i] == rest[i];
          }
        }
      }
    }
  }

  /** Prefixing a character to the first token prefixes it to the joined line. */
  lemma JoinSpacedCons(c: char, t: string, rest: seq<string>)
    ensures JoinSpaced([[c] + t] + rest) == [c] + JoinSpaced([t] + rest)
  {
    var a := [[c] + t] + rest;
    var b := [t] + rest;
    assert a[0] == [c] + t && b[0] == t;
    if rest != [] {
      assert a[1..] == rest && b[1..] == rest;
      var tail := JoinSpaced(rest);
      assert JoinSpaced(a) == ([c] + t) + " " + tail;
      assert JoinSpaced(b) == t + " " + tail;
    }
  }

  /** Joining the tokens with single spaces gives the line back. */
  lemma {:induction false} JoinSplit(s: string)
    ensures JoinSpaced(Split(s)) == s
    decreases |s|
  {
    if s != [] {
      var rest := Split(s[1..]);
      JoinSplit(s[1..]);
      assert s == [s[0]] + s[1..];
      if s[0] == ' ' {
        assert Split(s) == [""] + rest;
        assert (Split(s))[1..] == rest;
      } else {
        assert Split(s) == [[s[0]] + rest[0]] + rest[1..];
        assert rest == [rest[0]] + rest[1..];
        JoinSpacedCons(s[0], rest[0], rest[1..]);
      }
    }
  }

  lemma {:induction false} SplitNoSpace(a: string)
    requires ' ' !in a
    ensures Split(a) == [a]
    decreases |a|
  {
    if a != [] {
      SplitNoSpace(a[1..]);
      assert [a[0]] + a[1..] == a;
    }
  }

  lemma {:induction false} SplitAfterToken(a: string, b: string)
    requires ' ' !in a
    ensures Split(a + " " + b) == [a] + Split(b)
    decreases |a|
  {
    if a == [] {
      assert a + " " + b == [' '] + b;
      assert (a + " " + b)[1..] == b;
    } else {
      var s := a + " " + b;
      assert s[1..] == a[1..] + " " + b;
      SplitAfterToken(a[1..], b);
      assert [a[0]] + a[1..] == a;
    }
  }

  /** Splitting space-free tokens joined by single spaces gives them back. */
  lemma {:induction false} SplitJoin(ts: seq<string>)
    requires |ts| >= 1
    requires forall i :: 0 <= i < |ts| ==> ' ' !in ts[i]
    ensures Split(JoinSpaced(ts)) == ts
    decreases |ts|
  {
    if |ts| == 1 {
      SplitNoSpace(ts[0]);
    } else {
      SplitJoin(ts[1..]);
      SplitAfterToken(ts[0], JoinSpaced(ts[1..]));
      assert [ts[0]] + ts[1..] == ts;
    }
  }

  function Tokens(line: string): seq<string>
  {
    Split(Strip(line))
  }

  /** A line counts iff its token list has at least three entries; empty tokens
      produced by runs of spaces count too. */
  predicate Qualifies(line: string)
  {
    |Tokens(line)| >= 3
  }

  /** The text handed to `eval`: the tokens from the third on, concatenated. */
  function RangeExpr(line: string): string
    requires Qualifies(line)
  {
    Concat(Tokens(line)[2..])
  }

  /** The range expressions of the qualifying lines, in file order. */
  function RangeExprs(lines: seq<string>): seq<string>
    decreases |lines|
  {
    if lines == [] then []
    else var last := lines[|lines| - 1];
         RangeExprs(lines[..|lines| - 1]) + (if Qualifies(last) then [RangeExpr(last)] else [])
  }

  datatype Lengths = Evaluated(ns: seq<nat>) | Failed(expr: string)

  /** The list `lenghts` built by the loop, or the first expression whose
      evaluation raised. */
  function EvalAll(exprs: seq<string>, card: string -> Eval): Lengths
    decreases |exprs|
  {
    if exprs == [] then Evaluated([])
    else
      var last := exprs[|exprs| - 1];
      match EvalAll(exprs[..|exprs| - 1], card)
      case Failed(e) => Failed(e)
      case Evaluated(ns) =>
        match card(last)
        case Raises => Failed(last)
        case Length(n) => Evaluated(ns + [n])
  }

  /** `reduce(lambda x, y: x * y, ns)`: a left fold that starts from the first
      element, so it is defined only for a non-empty list. */
  function Product(ns: seq<nat>): nat
    requires |ns| >= 1
    decreases |ns|
  {
    if |ns| == 1 then ns[0] else Product(ns[..|ns| - 1]) * ns[|ns| - 1]
  }

  /** The specification of `get_total_iterations(file)`. */
  function TotalIterations(lines: seq<string>, card: string -> Eval): Outcome
  {
    match EvalAll(RangeExprs(lines), card)
    case Failed(e) => EvalError(e)
    case Evaluated(ns) => if ns == [] then EmptyReduce else Total(Product(ns))
  }

  // ---------------------------------------------------------------------------
  // Properties of the specification

  /** The product is zero iff one of the factors is. */
  lemma {:induction false} ProductZeroIff(ns: seq<nat>)
    requires |ns| >= 1
    ensures Product(ns) == 0 <==> 0 in ns
    decreases |ns|
  {
    if |ns| > 1 {
      var init := ns[..|ns| - 1];
      ProductZeroIff(init);
      assert ns == init + [ns[|ns| - 1]];
    }
  }

  /** The lengths are collected iff every expression evaluates, and then they
      are exactly the cardinalities, in order; otherwise the error names the
      first expression that raised. */
  lemma {:induction false} EvalAllSpec(exprs: seq<string>, card: string -> Eval)
    ensures EvalAll(exprs, card).Evaluated? <==> forall i :: 0 <= i < |exprs| ==> card(exprs[i]).Length?
    ensures EvalAll(exprs, card).Evaluated? ==>
              |EvalAll(exprs, card).ns| == |exprs|
              && forall i :: 0 <= i < |exprs| ==> card(exprs[i]) == Length(EvalAll(exprs, card).ns[i])
    ensures EvalAll(exprs, card).Failed? ==>
              exists i :: 0 <= i < |exprs| && exprs[i] == EvalAll(exprs, card).expr && card(exprs[i]) == Raises
                          && forall j :: 0 <= j < i ==> card(exprs[j]).Length?
    decreases |exprs|
  {
    if exprs != [] {
      var n := |exprs| - 1;
      var init := exprs[..n];
      EvalAllSpec(init, card);
      assert forall i :: 0 <= i < n ==> init[i] == exprs[i];
      match EvalAll(init, card)
      case Failed(e) =>
        var i :| 0 <= i < n && init[i] == e && card(init[i]) == Raises
                 && forall j :: 0 <= j < i ==> card(init[j]).Length?;
        assert exprs[i] == e;
      case Evaluated(ns) =>
        if card(exprs[n]).Raises? {
          assert exprs[n] == EvalAll(exprs, card).expr;
        }
    }
  }

  lemma {:induction false} RangeExprsConcat(a: seq<string>, b: seq<string>)
    ensures RangeExprs(a + b) == RangeExprs(a) + RangeExprs(b)
    decreases |b|
  {
    if b == [] {
      assert a + b == a;
    } else {
      var n := |b| - 1;
      assert (a + b)[..|a + b| - 1] == a + b[..n];
      RangeExprsConcat(a, b[..n]);
    }
  }

  /** A line with fewer than three tokens changes nothing, wherever it stands. */
  lemma SkippedLineIgnored(a: seq<string>, line: string, b: seq<string>, card: string -> Eval)
    requires !Qualifies(line)
    ensures TotalIterations(a + [line] + b, card) == TotalIterations(a + b, card)
  {
    RangeExprsConcat(a + [line], b);
    RangeExprsConcat(a, [line]);
    RangeExprsConcat(a, b);
    assert RangeExprs([line]) == [] by {
      assert [line][..0] == [];
    }
    assert RangeExprs(a + [line] + b) == RangeExprs(a + b);
  }

  lemma {:induction false} RangeExprsEmptyIff(lines: seq<string>)
    ensures RangeExprs(lines) == [] <==> forall i :: 0 <= i < |lines| ==> !Qualifies(lines[i])
    decreases |lines|
  {
    if lines != [] {
      var n := |lines| - 1;
      RangeExprsEmptyIff(lines[..n]);
      assert forall i :: 0 <= i < n ==> lines[..n][i] == lines[i];
    }
  }

  /** No qualifying line: `reduce` raises; the result is never 1. */
  lemma EmptyReduceIff(lines: seq<string>, card: string -> Eval)
    ensures TotalIterations(lines, card) == EmptyReduce <==> forall i :: 0 <= i < |lines| ==> !Qualifies(lines[i])
  {
    RangeExprsEmptyIff(lines);
    EvalAllSpec(RangeExprs(lines), card);
  }

  /** A result is produced iff some line qualifies and every range expression
      evaluates; it is then the product of the cardinalities, and it is zero
      iff some range is empty. */
  lemma TotalSpec(lines: seq<string>, card: string -> Eval)
    ensures TotalIterations(lines, card).Total? <==>
              RangeExprs(lines) != [] && forall i :: 0 <= i < |RangeExprs(lines)| ==> card(RangeExprs(lines)[i]).Length?
    ensures TotalIterations(lines, card).Total? ==>
              (TotalIterations(lines, card).n == 0 <==> exists i :: 0 <= i < |RangeExprs(lines)| && card(RangeExprs(lines)[i]) == Length(0))
  {
    var exprs := RangeExprs(lines);
    EvalAllSpec(exprs, card);
    if TotalIterations(lines, card).Total? {
      var ns := EvalAll(exprs, card).ns;
      ProductZeroIff(ns);
      if 0 in ns {
        var i :| 0 <= i < |ns| && ns[i] == 0;
        assert card(exprs[i]) == Length(0);
      }
    }
  }

  /** A failure names a range expression of the file whose evaluation raised,
      and every qualifying line before it evaluated. */
  lemma EvalErrorSpec(lines: seq<string>, card: string -> Eval)
    requires TotalIterations(lines, card).EvalError?
    ensures exists i :: 0 <= i < |RangeExprs(lines)|
              && RangeExprs(lines)[i] == TotalIterations(lines, card).expr
              && card(RangeExprs(lines)[i]) == Raises
              && forall j :: 0 <= j < i ==> card(RangeExprs(lines)[j]).Length?
  {
    EvalAllSpec(RangeExprs(lines), card);
  }

  /** Three declared ranges of sizes a, b and c give a * b * c points. */
  lemma ThreeRanges(l1: string, l2: string, l3: string, card: string -> Eval, a: nat, b: nat, c: nat)
    requires Qualifies(l1) && Qualifies(l2) && Qualifies(l3)
    requires card(RangeExpr(l1)) == Length(a)
    requires card(RangeExpr(l2)) == Length(b)
    requires card(RangeExpr(l3)) == Length(c)
    ensures TotalIterations([l1, l2, l3], card) == Total(a * b * c)
  {
    var exprs := [RangeExpr(l1), RangeExpr(l2), RangeExpr(l3)];
    assert RangeExprs([l1, l2, l3]) == exprs by {
      RangeExprsConcat([l1], [l2]);
      RangeExprsConcat([l1, l2], [l3]);
      assert [l1] + [l2] == [l1, l2] && [l1, l2] + [l3] == [l1, l2, l3];
      assert [l1][..0] == [] && [l2][..0] == [] && [l3][..0] == [];
    }
    assert EvalAll(exprs, card) == Evaluated([a, b, c]) by {
      EvalAllSnoc([], RangeExpr(l1), card);
      EvalAllSnoc([RangeExpr(l1)], RangeExpr(l2), card);
      EvalAllSnoc([RangeExpr(l1), RangeExpr(l2)], RangeExpr(l3), card);
      assert [] + [RangeExpr(l1)] == [RangeExpr(l1)];
      assert [RangeExpr(l1)] + [RangeExpr(l2)] == [RangeExpr(l1), RangeExpr(l2)];
      assert [RangeExpr(l1), RangeExpr(l2)] + [RangeExpr(l3)] == exprs;
      assert [] + [a] == [a] && [a] + [b] == [a, b] && [a, b] + [c] == [a, b, c];
    }
    assert Product([a, b, c]) == a * b * c by {
      assert [a, b, c][..2] == [a, b];
      assert [a, b][..1] == [a];
      assert Product([a]) == a;
      assert Product([a, b]) == a * b;
    }
  }

  // ---------------------------------------------------------------------------
  // The function as the source computes it

  /** `get_total_iterations(file)`, given the file's lines. */
  method GetTotalIterations(lines: seq<string>, card: string -> Eval) returns (out: Outcome)
    ensures out == TotalIterations(lines, card)
  {
    var lengths: seq<nat> := [];
    for i := 0 to |lines|
      invariant EvalAll(RangeExprs(lines[..i]), card) == Evaluated(lengths)
    {
      RangeExprsSnoc(lines, i);
      var paraList := Split(Strip(lines[i]));
      if |paraList| < 3 {
        assert !Qualifies(lines[i]);
        assert RangeExprs(lines[..i + 1]) == RangeExprs(lines[..i]);
        continue;
      }
      var expr := Concat(paraList[2..]);
      assert Qualifies(lines[i]) && expr == RangeExpr(lines[i]);
      EvalAllSnoc(RangeExprs(lines[..i]), expr, card);
      match card(expr)
      case Raises =>
        RaisesIsFinal(lines, i, card);
        return EvalError(expr);
      case Length(n) =>
        assert RangeExprs(lines[..i + 1]) == RangeExprs(lines[..i]) + [expr];
        assert EvalAll(RangeExprs(lines[..i + 1]), card) == Evaluated(lengths + [n]);
        lengths := lengths + [n];
    }
    assert lines[..|lines|] == lines;
    if |lengths| == 0 {
      return EmptyReduce;
    }
    var product := Reduce(lengths);
    return Total(product);
  }

  lemma RangeExprsSnoc(lines: seq<string>, i: nat)
    requires i < |lines|
    ensures RangeExprs(lines[..i + 1])
            == RangeExprs(lines[..i]) + (if Qualifies(lines[i]) then [RangeExpr(lines[i])] else [])
  {
    assert lines[..i + 1][..i] == lines[..i];
  }

  lemma EvalAllSnoc(exprs: seq<string>, e: string, card: string -> Eval)
    ensures EvalAll(exprs + [e], card)
            == match EvalAll(exprs, card)
               case Failed(f) => Failed(f)
               case Evaluated(ns) =>
                 match card(e)
                 case Raises => Failed(e)
                 case Length(n) => Evaluated(ns + [n])
  {
    assert (exprs + [e])[..|exprs|] == exprs;
  }

  /** When line `i` is the first whose expression raises, that is the outcome. */
  lemma RaisesIsFinal(lines: seq<string>, i: nat, card: string -> Eval)
    requires i < |lines| && Qualifies(lines[i])
    requires EvalAll(RangeExprs(lines[..i + 1]), card) == Failed(RangeExpr(lines[i]))
    ensures TotalIterations(lines, card) == EvalError(RangeExpr(lines[i]))
  {
    RangeExprsConcat(lines[..i + 1], lines[i + 1..]);
    assert lines[..i + 1] + lines[i + 1..] == lines;
    FailureSticks(RangeExprs(lines[..i + 1]), RangeExprs(lines[i + 1..]), card);
  }

  /** `reduce(lambda x, y: x * y, ns)` on a non-empty list. */
  method Reduce(ns: seq<nat>) returns (acc: nat)
    requires |ns| >= 1
    ensures acc == Product(ns)
    ensures acc == 0 <==> 0 in ns
  {
    acc := ns[0];
    for k := 1 to |ns|
      invariant acc == Product(ns[..k])
    {
      assert ns[..k + 1][..k] == ns[..k];
      acc := acc * ns[k];
    }
    assert ns[..|ns|] == ns;
    ProductZeroIff(ns);
  }

  /** Once an expression has raised, later lines are never evaluated. */
  lemma {:induction false} FailureSticks(a: seq<string>, b: seq<string>, card: string -> Eval)
    requires EvalAll(a, card).Failed?
    ensures EvalAll(a + b, card) == EvalAll(a, card)
    decreases |b|
  {
    if b == [] {
      assert a + b == a;
    } else {
      var n := |b| - 1;
      assert (a + b)[..|a + b| - 1] == a + b[..n];
      FailureSticks(a, b[..n], card);
    }
  }
}
