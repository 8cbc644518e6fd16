/** The two halves of the editor's two-way binding fit together: the equation the
    simplifier prints for a truth table, fed back to the equation evaluator with the
    same number of inputs, yields the same table on rows 0..2^n-1. */
module RoundTrip {
  import opened Bits
  import opened Cubes
  import opened BooleanSimplifier
  import opened SopFormat
  import opened EquationParser

  /** The literals of positions k, k+1, ... of c, read forwards. */
  function LitsFrom(c: Cube, k: nat): string
    requires |c| <= MaxVariables
    decreases |c| - k
  {
    if k >= |c| then "" else LiteralText(c[k], k) + LitsFrom(c, k + 1)
  }

  lemma {:induction false} LiteralsSplit(c: Cube, m: nat)
    requires |c| <= MaxVariables && m <= |c|
    ensures Literals(c[..m]) + LitsFrom(c, m) == Literals(c)
    decreases |c| - m
  {
    if m == |c| {
      assert c[..m] == c;
    } else {
      var front, lit, rest := Literals(c[..m]), LiteralText(c[m], m), LitsFrom(c, m + 1);
      assert Literals(c[..m + 1]) == front + lit by {
        assert c[..m + 1][..m] == c[..m];
      }
      assert Literals(c[..m + 1]) + rest == Literals(c) by {
        LiteralsSplit(c, m + 1);
      }
      assert LitsFrom(c, m) == lit + rest;
      AppendAssoc(front, lit, rest);
    }
  }

  lemma AppendAssoc<T>(a: seq<T>, b: seq<T>, c: seq<T>)
    ensures a + (b + c) == (a + b) + c
  {
  }

  lemma {:induction false} LitsFromStart(c: Cube, k: nat)
    requires |c| <= MaxVariables
    ensures LitsFrom(c, k) != "" ==> 'A' <= LitsFrom(c, k)[0] <= 'Z'
    decreases |c| - k
  {
    if k < |c| && c[k] == Dash {
      LitsFromStart(c, k + 1);
      assert LitsFrom(c, k) == LitsFrom(c, k + 1);
    }
  }

  /** Positions k, k+1, ... of c agree with the assignment. */
  predicate MatchesFrom(c: Cube, a: seq<bool>, k: nat)
    requires |c| == |a|
    decreases |c| - k
  {
    k >= |c| || (Agrees(c[k], a[k]) && MatchesFrom(c, a, k + 1))
  }

  /** A product term ends at the end of the tokens or at a `+`. */
  predicate EndsTerm(toks: string, q: nat)
  {
    q >= |toks| || toks[q] == '+'
  }

  lemma PostfixStop(toks: string, v: bool, p: nat)
    requires p <= |toks| && (p == |toks| || toks[p] != '\'')
    ensures Postfix(toks, v, p) == Some(Parsed(v, p))
  {
  }

  /** One literal of a cube, followed by no quote, is one factor: the input's value
      for a '1' position, its negation for a '0' position. */
  lemma FactorOfLiteral(toks: string, n: nat, scope: seq<bool>, c: Cube, k: nat, p: nat, lit: string)
    requires |c| == n && |scope| == n && n <= MaxVariables && k < n && c[k] != Dash
    requires lit == LiteralText(c[k], k) && p + |lit| <= |toks| && toks[p..p + |lit|] == lit
    requires p + |lit| == |toks| || toks[p + |lit|] != '\''
    ensures Factor(toks, n, scope, p) == Some(Parsed(Agrees(c[k], scope[k]), p + |lit|))
  {
    assert toks[p] == lit[0] == Letter(k);
    assert VarIndex(toks[p]) == k;
    assert Factor(toks, n, scope, p) == Postfix(toks, scope[k], p + 1);
    if c[k] == Zero {
      assert toks[p + 1] == lit[1] == '\'';
      assert Postfix(toks, scope[k], p + 1) == Postfix(toks, !scope[k], p + 2);
      PostfixStop(toks, !scope[k], p + 2);
    } else {
      PostfixStop(toks, scope[k], p + 1);
    }
  }

  /** The factor loop stops at the end of a term. */
  lemma TermTailEnd(toks: string, n: nat, scope: seq<bool>, acc: bool, p: nat)
    requires p <= |toks| && EndsTerm(toks, p)
    ensures TermTail(toks, n, scope, acc, p) == Some(Parsed(acc, p))
  {
  }

  lemma TermTailFactor(toks: string, n: nat, scope: seq<bool>, acc: bool, p: nat, f: Parsed)
    requires p < |toks| && toks[p] != '+' && toks[p] != ')'
    requires Factor(toks, n, scope, p) == Some(f)
    ensures f.pos <= |toks|
    ensures TermTail(toks, n, scope, acc, p) == TermTail(toks, n, scope, acc && f.value, f.pos)
  {
  }

  lemma LitsFromDash(c: Cube, k: nat)
    requires |c| <= MaxVariables && k < |c| && c[k] == Dash
    ensures LitsFrom(c, k) == LitsFrom(c, k + 1)
  {
  }

  lemma LitsFromLiteral(c: Cube, k: nat)
    requires |c| <= MaxVariables && k < |c|
    ensures LitsFrom(c, k) == LiteralText(c[k], k) + LitsFrom(c, k + 1)
  {
  }

  /** The first literal lit of the literals L of positions k.. of c is one factor,
      and the rest of the literals follow it. */
  lemma LeadingLiteral(toks: string, n: nat, scope: seq<bool>, c: Cube, k: nat, p: nat, L: string, lit: string, rest: string)
    requires |c| == n && |scope| == n && n <= MaxVariables && k < n && c[k] != Dash
    requires L == LitsFrom(c, k) && lit == LiteralText(c[k], k) && rest == LitsFrom(c, k + 1)
    requires p + |L| <= |toks| && toks[p..p + |L|] == L && EndsTerm(toks, p + |L|)
    ensures p < |toks| && toks[p] != '+' && toks[p] != ')'
    ensures Factor(toks, n, scope, p) == Some(Parsed(Agrees(c[k], scope[k]), p + |lit|))
    ensures |L| == |lit| + |rest| && toks[p + |lit|..p + |L|] == rest
  {
    var w := |lit|;
    assert L == lit + rest by {
      LitsFromLiteral(c, k);
    }
    assert toks[p..p + w] == lit by {
      assert toks[p..p + w] == toks[p..p + |L|][..w];
    }
    assert toks[p + w..p + |L|] == rest by {
      assert toks[p + w..p + |L|] == toks[p..p + |L|][w..];
    }
    assert p + w == |toks| || toks[p + w] != '\'' by {
      LitsFromStart(c, k + 1);
      if rest != "" {
        assert toks[p + w] == toks[p + w..p + |L|][0];
      }
    }
    assert toks[p] == Letter(k) by {
      assert toks[p] == toks[p..p + w][0];
    }
    FactorOfLiteral(toks, n, scope, c, k, p, lit);
  }

  /** From p on, each literal of positions k.. of c is one factor carrying the cube's
      verdict on its variable, and the term ends at e. */
  ghost predicate LitsParse(toks: string, n: nat, scope: seq<bool>, c: Cube, k: nat, p: nat, e: nat)
    requires |c| == n && |scope| == n && n <= MaxVariables
    decreases n - k
  {
    if k >= n then p == e && e <= |toks| && EndsTerm(toks, e)
    else if c[k] == Dash then LitsParse(toks, n, scope, c, k + 1, p, e)
    else
      p < |toks| && toks[p] != '+' && toks[p] != ')' && p + |LiteralText(c[k], k)| <= |toks| &&
      Factor(toks, n, scope, p) == Some(Parsed(Agrees(c[k], scope[k]), p + |LiteralText(c[k], k)|)) &&
      LitsParse(toks, n, scope, c, k + 1, p + |LiteralText(c[k], k)|, e)
  }

  /** The printed literals L of positions k.. of c, from p to e, parse one factor each. */
  lemma {:induction false} PrintedLits(toks: string, n: nat, scope: seq<bool>, c: Cube, k: nat, p: nat, e: nat, L: string)
    requires |c| == n && |scope| == n && n <= MaxVariables && k <= n && L == LitsFrom(c, k)
    requires e == p + |L| && e <= |toks| && toks[p..e] == L && EndsTerm(toks, e)
    ensures LitsParse(toks, n, scope, c, k, p, e)
    decreases n - k, 1
  {
    if k == n {
      assert L == "";
    } else if c[k] == Dash {
      PrintedDash(toks, n, scope, c, k, p, e, L);
    } else {
      PrintedLiteral(toks, n, scope, c, k, p, e, L);
    }
  }

  lemma {:induction false} PrintedDash(toks: string, n: nat, scope: seq<bool>, c: Cube, k: nat, p: nat, e: nat, L: string)
    requires |c| == n && |scope| == n && n <= MaxVariables && k < n && c[k] == Dash && L == LitsFrom(c, k)
    requires e == p + |L| && e <= |toks| && toks[p..e] == L && EndsTerm(toks, e)
    ensures LitsParse(toks, n, scope, c, k, p, e)
    decreases n - k, 0
  {
    var rest := LitsFrom(c, k + 1);
    assert L == rest by {
      LitsFromDash(c, k);
    }
    PrintedLits(toks, n, scope, c, k + 1, p, e, rest);
    LitsParseDash(toks, n, scope, c, k, p, e);
  }

  lemma {:induction false} PrintedLiteral(toks: string, n: nat, scope: seq<bool>, c: Cube, k: nat, p: nat, e: nat, L: string)
    requires |c| == n && |scope| == n && n <= MaxVariables && k < n && c[k] != Dash && L == LitsFrom(c, k)
    requires e == p + |L| && e <= |toks| && toks[p..e] == L && EndsTerm(toks, e)
    ensures LitsParse(toks, n, scope, c, k, p, e)
    decreases n - k, 0
  {
    var lit, rest := LiteralText(c[k], k), LitsFrom(c, k + 1);
    var q := p + |lit|;
    assert p < |toks| && toks[p] != '+' && toks[p] != ')' &&
      Factor(toks, n, scope, p) == Some(Parsed(Agrees(c[k], scope[k]), q)) &&
      q + |rest| == e && toks[q..e] == rest by {
      LeadingLiteral(toks, n, scope, c, k, p, L, lit, rest);
    }
    PrintedLits(toks, n, scope, c, k + 1, q, e, rest);
    LitsParseLiteral(toks, n, scope, c, k, p, q, e);
  }

  lemma LitsParseDash(toks: string, n: nat, scope: seq<bool>, c: Cube, k: nat, p: nat, e: nat)
    requires |c| == n && |scope| == n && n <= MaxVariables && k < n && c[k] == Dash
    requires LitsParse(toks, n, scope, c, k + 1, p, e)
    ensures LitsParse(toks, n, scope, c, k, p, e)
  {
  }

  lemma LitsParseLiteral(toks: string, n: nat, scope: seq<bool>, c: Cube, k: nat, p: nat, q: nat, e: nat)
    requires |c| == n && |scope| == n && n <= MaxVariables && k < n && c[k] != Dash
    requires q == p + |LiteralText(c[k], k)| && p < |toks| && toks[p] != '+' && toks[p] != ')' && q <= |toks|
    requires Factor(toks, n, scope, p) == Some(Parsed(Agrees(c[k], scope[k]), q))
    requires LitsParse(toks, n, scope, c, k + 1, q, e)
    ensures LitsParse(toks, n, scope, c, k, p, e)
  {
  }

  /** The factor loop of parseTerm over the literals of positions k.. of c ANDs in,
      for each, whether the variable has the cube's bit. */
  lemma {:induction false} TailLits(toks: string, n: nat, scope: seq<bool>, c: Cube, k: nat, acc: bool, p: nat, e: nat)
    requires |c| == n && |scope| == n && n <= MaxVariables && k <= n && p <= |toks|
    requires LitsParse(toks, n, scope, c, k, p, e)
    ensures TermTail(toks, n, scope, acc, p) == Some(Parsed(acc && MatchesFrom(c, scope, k), e))
    decreases n - k
  {
    if k == n {
      TermTailEnd(toks, n, scope, acc, p);
    } else if c[k] == Dash {
      TailLits(toks, n, scope, c, k + 1, acc, p, e);
    } else {
      var v := Agrees(c[k], scope[k]);
      var q := p + |LiteralText(c[k], k)|;
      TermTailFactor(toks, n, scope, acc, p, Parsed(v, q));
      TailLits(toks, n, scope, c, k + 1, acc && v, q, e);
    }
  }

  /** A term that starts with a factor is the factor loop started from true. */
  lemma TermAsTail(toks: string, n: nat, scope: seq<bool>, p: nat)
    requires p < |toks| && toks[p] != '+' && toks[p] != ')'
    ensures Term(toks, n, scope, p) == TermTail(toks, n, scope, true, p)
  {
  }

  /** A constant followed by the end of the term: "1" is the term of a cube without literals. */
  lemma TermConstant(toks: string, n: nat, scope: seq<bool>, p: nat)
    requires p < |toks| && (toks[p] == '0' || toks[p] == '1') && EndsTerm(toks, p + 1)
    ensures Term(toks, n, scope, p) == Some(Parsed(toks[p] == '1', p + 1))
  {
    PostfixStop(toks, toks[p] == '1', p + 1);
    assert Factor(toks, n, scope, p) == Some(Parsed(toks[p] == '1', p + 1));
  }

  lemma LiteralsForward(c: Cube)
    requires |c| <= MaxVariables
    ensures Literals(c) == LitsFrom(c, 0)
  {
    LiteralsSplit(c, 0);
    assert c[..0] == [];
  }

  lemma {:induction false} AllMatchesFrom(c: Cube, a: seq<bool>, k: nat)
    requires |c| == |a|
    ensures MatchesFrom(c, a, k) <==> forall j :: k <= j < |c| ==> Agrees(c[j], a[j])
    decreases |c| - k
  {
    if k < |c| {
      AllMatchesFrom(c, a, k + 1);
    }
  }

  /** A cube whose positions k.. print no literal is a dash there, so it matches. */
  lemma {:induction false} NoLiteralsMatches(c: Cube, a: seq<bool>, k: nat)
    requires |c| == |a| && |c| <= MaxVariables && LitsFrom(c, k) == ""
    ensures MatchesFrom(c, a, k)
    decreases |c| - k
  {
    if k < |c| {
      LitsFromLiteral(c, k);
      NoLiteralsMatches(c, a, k + 1);
    }
  }

  /** A cube with literals: parseTerm reads them all. */
  lemma TermOfLiterals(toks: string, n: nat, scope: seq<bool>, c: Cube, p: nat, L: string)
    requires |c| == n && |scope| == n && n <= MaxVariables && L == LitsFrom(c, 0) && L != ""
    requires p + |L| <= |toks| && toks[p..p + |L|] == L && EndsTerm(toks, p + |L|)
    ensures Term(toks, n, scope, p) == Some(Parsed(MatchesFrom(c, scope, 0), p + |L|))
  {
    assert toks[p] != '+' && toks[p] != ')' by {
      LitsFromStart(c, 0);
      assert toks[p] == toks[p..p + |L|][0];
    }
    assert LitsParse(toks, n, scope, c, 0, p, p + |L|) by {
      PrintedLits(toks, n, scope, c, 0, p, p + |L|, L);
    }
    TermAsTail(toks, n, scope, p);
    TailLits(toks, n, scope, c, 0, true, p, p + |L|);
  }

  /** parseTerm reads the text x of a cube and yields whether the cube matches the row. */
  lemma TermOfCube(toks: string, n: nat, scope: seq<bool>, c: Cube, x: string, p: nat)
    requires |c| == n && |scope| == n && n <= MaxVariables && x == TermText(c)
    requires p + |x| <= |toks| && toks[p..p + |x|] == x && EndsTerm(toks, p + |x|)
    ensures Term(toks, n, scope, p).Some? && Term(toks, n, scope, p).value.pos == p + |x|
    ensures Term(toks, n, scope, p).value.value == Matches(c, scope)
  {
    LiteralsForward(c);
    AllMatchesFrom(c, scope, 0);
    if Literals(c) == "" {
      assert toks[p] == x[0] == '1';
      TermConstant(toks, n, scope, p);
      NoLiteralsMatches(c, scope, 0);
    } else {
      TermOfLiterals(toks, n, scope, c, p, x);
    }
  }

  /** What follows the first term of a joined list: nothing, or `+` and the rest. */
  function PlusTail(parts: seq<string>): string
  {
    if parts == [] then "" else "+" + Join(parts, "+")
  }

  lemma JoinSplit(parts: seq<string>)
    requires parts != []
    ensures Join(parts, "+") == parts[0] + PlusTail(parts[1..])
  {
  }

  /** The tokens at p are a term x and then a rest z that is empty or starts with `+`. */
  lemma SplitAt(toks: string, p: nat, x: string, z: string)
    requires p <= |toks| && toks[p..] == x + z && (z == "" || z[0] == '+')
    ensures p + |x| <= |toks| && toks[p..p + |x|] == x
    ensures toks[p + |x|..] == z && EndsTerm(toks, p + |x|)
  {
    SplitConcat(toks, p, x, z);
    if p + |x| < |toks| {
      assert toks[p + |x|] == toks[p + |x|..][0];
    }
  }

  /** Each printed cube after a `+` of the joined list, from p on, parses to whether
      it matches. */
  ghost predicate TermsParse(toks: string, n: nat, scope: seq<bool>, qs: seq<Cube>, p: nat)
    requires forall c :: c in qs ==> |c| <= MaxVariables
    decreases |qs|
  {
    if qs == [] then p == |toks|
    else
      p < |toks| && toks[p] == '+' && p + 1 + |TermText(qs[0])| <= |toks| &&
      Term(toks, n, scope, p + 1) == Some(Parsed(Matches(qs[0], scope), p + 1 + |TermText(qs[0])|)) &&
      TermsParse(toks, n, scope, qs[1..], p + 1 + |TermText(qs[0])|)
  }

  lemma TermTextsCons(qs: seq<Cube>)
    requires qs != [] && forall c :: c in qs ==> |c| <= MaxVariables
    ensures TermTexts(qs)[0] == TermText(qs[0]) && TermTexts(qs)[1..] == TermTexts(qs[1..])
  {
  }

  lemma AnyMatchCons(qs: seq<Cube>, a: seq<bool>)
    requires qs != []
    ensures AnyMatch(qs, a) <==> Matches(qs[0], a) || AnyMatch(qs[1..], a)
  {
    if AnyMatch(qs, a) {
      var j :| 0 <= j < |qs| && Matches(qs[j], a);
      if j > 0 {
        assert qs[1..][j - 1] == qs[j];
      }
    }
    if AnyMatch(qs[1..], a) {
      var j :| 0 <= j < |qs[1..]| && Matches(qs[1..][j], a);
      assert qs[j + 1] == qs[1..][j];
    }
  }

  lemma ExprTailEnd(toks: string, n: nat, scope: seq<bool>, acc: bool, p: nat)
    requires p == |toks|
    ensures ExprTail(toks, n, scope, acc, p) == Some(Parsed(acc, p))
  {
  }

  /** One `+ term` step of parseExpression's loop, with the rest of the loop's result given. */
  lemma TailStep(toks: string, n: nat, scope: seq<bool>, acc: bool, p: nat, v: bool, q: nat, res: Option<Parsed>)
    requires p < |toks| && toks[p] == '+' && Term(toks, n, scope, p + 1) == Some(Parsed(v, q))
    requires q <= |toks| && ExprTail(toks, n, scope, acc || v, q) == res
    ensures ExprTail(toks, n, scope, acc, p) == res
  {
  }

  lemma ExprStart(toks: string, n: nat, scope: seq<bool>, t: Parsed)
    requires Term(toks, n, scope, 0) == Some(t)
    ensures t.pos <= |toks|
    ensures Expr(toks, n, scope, 0) == ExprTail(toks, n, scope, t.value, t.pos)
  {
  }

  /** What follows the first printed cube of a list: `+` and each further cube. */
  function CubesTail(qs: seq<Cube>): string
    requires forall c :: c in qs ==> |c| <= MaxVariables
  {
    if qs == [] then "" else "+" + TermText(qs[0]) + CubesTail(qs[1..])
  }

  lemma {:induction false} PlusTailCubes(qs: seq<Cube>)
    requires forall c :: c in qs ==> |c| <= MaxVariables
    ensures PlusTail(TermTexts(qs)) == CubesTail(qs)
  {
    if qs != [] {
      PlusTailCubes(qs[1..]);
      TermTextsCons(qs);
      JoinSplit(TermTexts(qs));
    }
  }

  /** The tokens at p begin with y and continue with z. */
  lemma SplitConcat(toks: string, p: nat, y: string, z: string)
    requires p <= |toks| && toks[p..] == y + z
    ensures p + |y| <= |toks| && toks[p..p + |y|] == y && toks[p + |y|..] == z
  {
    assert toks[p..p + |y|] == toks[p..][..|y|];
    assert toks[p + |y|..] == toks[p..][|y|..];
  }

  /** A `+`, a term x and a rest z that is empty or starts another `+`. */
  lemma NextText(toks: string, p: nat, x: string, z: string)
    requires p <= |toks| && toks[p..] == "+" + x + z && (z == "" || z[0] == '+')
    ensures p < |toks| && toks[p] == '+'
    ensures var q := p + 1 + |x|;
      q <= |toks| && toks[p + 1..q] == x && EndsTerm(toks, q) && toks[q..] == z
  {
    var q := p + 1 + |x|;
    SplitConcat(toks, p, "+" + x, z);
    assert toks[p] == toks[p..q][0];
    SplitConcat(toks, p + 1, x, z);
    if q < |toks| {
      assert toks[q] == toks[q..][0];
    }
  }

  lemma CubesTailCons(qs: seq<Cube>)
    requires qs != [] && forall c :: c in qs ==> |c| <= MaxVariables
    ensures CubesTail(qs) == "+" + TermText(qs[0]) + CubesTail(qs[1..])
    ensures CubesTail(qs[1..]) == "" || CubesTail(qs[1..])[0] == '+'
  {
  }

  /** The tokens after the first printed cube x of a `+`-list at p, and the rest z. */
  lemma NextTerm(toks: string, qs: seq<Cube>, p: nat, x: string, z: string)
    requires qs != [] && forall c :: c in qs ==> |c| <= MaxVariables
    requires x == TermText(qs[0]) && z == CubesTail(qs[1..])
    requires p <= |toks| && toks[p..] == CubesTail(qs)
    ensures p < |toks| && toks[p] == '+'
    ensures p + 1 + |x| <= |toks| && toks[p + 1..p + 1 + |x|] == x && EndsTerm(toks, p + 1 + |x|)
    ensures toks[p + 1 + |x|..] == z
  {
    assert toks[p..] == "+" + x + z && (z == "" || z[0] == '+') by {
      CubesTailCons(qs);
    }
    NextText(toks, p, x, z);
  }

  /** The `+` loop of parseExpression over the remaining printed cubes ORs in whether
      each matches. */
  lemma {:induction false} TailJoin(toks: string, n: nat, scope: seq<bool>, qs: seq<Cube>, acc: bool, p: nat)
    requires forall c :: c in qs ==> |c| <= MaxVariables
    requires p <= |toks| && TermsParse(toks, n, scope, qs, p)
    ensures ExprTail(toks, n, scope, acc, p) == Some(Parsed(acc || AnyMatch(qs, scope), |toks|))
    decreases |qs|
  {
    if qs == [] {
      ExprTailEnd(toks, n, scope, acc, p);
    } else {
      var v := Matches(qs[0], scope);
      var q := p + 1 + |TermText(qs[0])|;
      TailJoin(toks, n, scope, qs[1..], acc || v, q);
      AnyMatchCons(qs, scope);
      TailStep(toks, n, scope, acc, p, v, q, Some(Parsed(acc || AnyMatch(qs, scope), |toks|)));
    }
  }

  /** Each printed cube after a `+` parses to whether it matches. */
  lemma {:induction false} PrintedTermsParse(toks: string, n: nat, scope: seq<bool>, qs: seq<Cube>, p: nat)
    requires |scope| == n && n <= MaxVariables && forall c :: c in qs ==> |c| == n
    requires p <= |toks| && toks[p..] == CubesTail(qs)
    ensures TermsParse(toks, n, scope, qs, p)
    decreases |qs|
  {
    if qs == [] {
      assert |toks[p..]| == 0;
    } else {
      var x := TermText(qs[0]);
      var q := p + 1 + |x|;
      assert qs[0] in qs;
      assert p < |toks| && toks[p] == '+' && q <= |toks| && toks[q..] == CubesTail(qs[1..]) &&
        toks[p + 1..q] == x && EndsTerm(toks, q) by {
        NextTerm(toks, qs, p, x, CubesTail(qs[1..]));
      }
      assert TermsParse(toks, n, scope, qs[1..], q) by {
        PrintedTermsParse(toks, n, scope, qs[1..], q);
      }
      assert Term(toks, n, scope, p + 1) == Some(Parsed(Matches(qs[0], scope), q)) by {
        TermOfCube(toks, n, scope, qs[0], x, p + 1);
      }
    }
  }

  /** The first printed cube of a joined list. */
  lemma FirstTerm(toks: string, n: nat, scope: seq<bool>, qs: seq<Cube>)
    requires |scope| == n && n <= MaxVariables && forall c :: c in qs ==> |c| == n
    requires qs != [] && toks == Join(TermTexts(qs), "+")
    ensures var q := |TermText(qs[0])|;
      q <= |toks| && toks[q..] == CubesTail(qs[1..]) &&
      Term(toks, n, scope, 0) == Some(Parsed(Matches(qs[0], scope), q))
  {
    assert qs[0] in qs;
    var x, z := TermText(qs[0]), CubesTail(qs[1..]);
    assert toks[0..] == x + z && (z == "" || z[0] == '+') by {
      TermTextsCons(qs);
      JoinSplit(TermTexts(qs));
      PlusTailCubes(qs[1..]);
      CubesTailCons(qs);
    }
    SplitAt(toks, 0, x, z);
    TermOfCube(toks, n, scope, qs[0], x, 0);
  }

  /** parseExpression over the printed cubes joined with `+` consumes them all and
      yields whether some cube matches. */
  lemma ExprJoin(toks: string, n: nat, scope: seq<bool>, qs: seq<Cube>)
    requires |scope| == n && n <= MaxVariables && forall c :: c in qs ==> |c| == n
    requires qs != [] && toks == Join(TermTexts(qs), "+")
    ensures Expr(toks, n, scope, 0) == Some(Parsed(AnyMatch(qs, scope), |toks|))
  {
    var v := Matches(qs[0], scope);
    var q := |TermText(qs[0])|;
    FirstTerm(toks, n, scope, qs);
    PrintedTermsParse(toks, n, scope, qs[1..], q);
    ExprStart(toks, n, scope, Parsed(v, q));
    TailJoin(toks, n, scope, qs[1..], v, q);
    AnyMatchCons(qs, scope);
  }

  /** Printed terms consist of tokens only. */
  predicate AllTokenChars(s: string)
  {
    forall k :: 0 <= k < |s| ==> IsTokenChar(s[k])
  }

  lemma TermTextTokens(c: Cube)
    requires |c| <= MaxVariables
    ensures AllTokenChars(TermText(c))
  {
    LiteralsChars(c);
  }

  /** The separator " + " tokenizes to the single token `+`. */
  lemma SeparatorTokens()
    ensures Tokenize(" + ") == "+"
  {
    TokenizeByChar(" + ");
    assert CharTokens(' ') == [] && CharTokens('+') == "+";
    assert " + "[1..] == "+ " && "+ "[1..] == " " && " "[1..] == "";
  }

  /** The tokenizer drops the spaces of the " + " separator and keeps the terms. */
  lemma {:induction false} TokenizeJoin(parts: seq<string>)
    requires forall i :: 0 <= i < |parts| ==> AllTokenChars(parts[i])
    ensures Tokenize(Join(parts, " + ")) == Join(parts, "+")
  {
    if |parts| == 1 {
      TokenizeTokens(parts[0]);
    } else if |parts| > 1 {
      var x, rest := parts[0], parts[1..];
      var spaced := Join(rest, " + ");
      assert Tokenize(spaced) == Join(rest, "+") by {
        forall i | 0 <= i < |rest|
          ensures AllTokenChars(rest[i])
        {
          assert rest[i] == parts[i + 1];
        }
        TokenizeJoin(rest);
      }
      assert Tokenize(x + " + ") == x + "+" by {
        TokenizeAppend(x, " + ");
        TokenizeTokens(x);
        SeparatorTokens();
      }
      assert Tokenize((x + " + ") + spaced) == Tokenize(x + " + ") + Tokenize(spaced) by {
        TokenizeAppend(x + " + ", spaced);
      }
    } else {
      TokenizeByChar("");
    }
  }

  /** The sort of the printed terms, carried out on the cubes themselves. */
  function InsertCube(c: Cube, s: seq<Cube>): (r: seq<Cube>)
    requires |c| <= MaxVariables && forall d :: d in s ==> |d| <= MaxVariables
    ensures multiset(r) == multiset(s) + multiset{c}
    ensures forall d :: d in r ==> |d| <= MaxVariables
  {
    if s == [] || TextLeq(TermText(c), TermText(s[0])) then [c] + s
    else
      assert s == [s[0]] + s[1..];
      [s[0]] + InsertCube(c, s[1..])
  }

  function SortCubes(s: seq<Cube>): (r: seq<Cube>)
    requires forall d :: d in s ==> |d| <= MaxVariables
    ensures multiset(r) == multiset(s)
    ensures forall d :: d in r ==> |d| <= MaxVariables
  {
    if s == [] then []
    else
      assert s == [s[0]] + s[1..];
      InsertCube(s[0], SortCubes(s[1..]))
  }

  lemma {:induction false} InsertCubeTexts(c: Cube, s: seq<Cube>)
    requires |c| <= MaxVariables && forall d :: d in s ==> |d| <= MaxVariables
    ensures TermTexts(InsertCube(c, s)) == Insert(TermText(c), TermTexts(s))
  {
    if s != [] && !TextLeq(TermText(c), TermText(s[0])) {
      InsertCubeTexts(c, s[1..]);
      assert TermTexts(s)[1..] == TermTexts(s[1..]);
    }
  }

  /** Sorting the printed terms is printing the cubes in sorted order. */
  lemma {:induction false} SortCubesTexts(s: seq<Cube>)
    requires forall d :: d in s ==> |d| <= MaxVariables
    ensures TermTexts(SortCubes(s)) == SortTexts(TermTexts(s))
  {
    if s != [] {
      SortCubesTexts(s[1..]);
      InsertCubeTexts(s[0], SortCubes(s[1..]));
      assert TermTexts(s)[1..] == TermTexts(s[1..]);
    }
  }

  lemma AnyMatchPermutation(qs: seq<Cube>, ps: seq<Cube>, a: seq<bool>)
    requires multiset(qs) == multiset(ps)
    ensures AnyMatch(qs, a) <==> AnyMatch(ps, a)
  {
    if AnyMatch(qs, a) {
      var j :| 0 <= j < |qs| && Matches(qs[j], a);
      assert qs[j] in multiset(ps);
      var i :| 0 <= i < |ps| && ps[i] == qs[j];
    }
    if AnyMatch(ps, a) {
      var j :| 0 <= j < |ps| && Matches(ps[j], a);
      assert ps[j] in multiset(qs);
      var i :| 0 <= i < |qs| && qs[i] == ps[j];
    }
  }

  /** The printed equation of a non-constant list of cubes evaluates, on any row, to
      whether some cube matches the row. */
  lemma EvalJoinedTerms(ps: seq<Cube>, n: nat, a: seq<bool>)
    requires n <= MaxVariables && |a| == n && ps != [] && forall c :: c in ps ==> |c| == n
    ensures EvalRow(Tokenize(Join(SortTexts(TermTexts(ps)), " + ")), n, a) == Some(AnyMatch(ps, a))
  {
    var qs := SortCubes(ps);
    assert forall c :: c in qs ==> |c| == n by {
      forall c | c in qs
        ensures |c| == n
      {
        assert c in multiset(ps);
      }
    }
    var parts := TermTexts(qs);
    SortCubesTexts(ps);
    forall i | 0 <= i < |parts|
      ensures AllTokenChars(parts[i])
    {
      TermTextsAt(qs, i);
      TermTextTokens(qs[i]);
    }
    assert |qs| == |ps|;
    TokenizeJoin(parts);
    ExprJoin(Join(parts, "+"), n, a, qs);
    AnyMatchPermutation(qs, ps, a);
  }

  lemma EvalConstant(s: string, n: nat, a: seq<bool>)
    requires s == "0" || s == "1"
    ensures EvalRow(Tokenize(s), n, a) == Some(s == "1")
  {
    TokenizeTokens(s);
    TermConstant(s, n, a, 0);
    ExprStart(s, n, a, Parsed(s == "1", 1));
    ExprTailEnd(s, n, a, s == "1", 1);
  }

  /** Parsing the printed equation of the prime implicants of t gives, on every row,
      whether that row of t is 1. */
  lemma FormatParses(n: nat, t: TruthTable, ps: seq<Cube>, r: nat)
    requires n <= MaxVariables && r < Pow2(n)
    requires forall c :: c in ps <==> IsPrime(n, t, c)
    ensures forall c :: c in ps ==> |c| == n
    ensures EvalRow(Tokenize(FormatTerms(ps)), n, RowBits(r, n)) == Some(IsTrueRow(n, t, r))
  {
    assert forall c :: c in ps ==> |c| == n;
    PrimesCoverExactlyTrueRows(n, t, ps, r);
    if ps == [] {
      EvalConstant("0", n, RowBits(r, n));
    } else if IsAllDash(ps[0]) {
      EvalConstant("1", n, RowBits(r, n));
      assert ps[0] in ps;
      assert ps[0] == AllDash(n);
      AllDashImplicantMeansAllTrue(n, t);
    } else {
      EvalJoinedTerms(ps, n, RowBits(r, n));
    }
  }

  /** Simplify, then parse the equation back: the evaluator accepts it and rebuilds the
      table on rows 0..2^n-1, each row 1 exactly when it was 1 in t. */
  method TwoWayBinding(n: nat, t: TruthTable) returns (eq: string, table: Option<map<nat, int>>)
    requires n <= MaxVariables
    ensures table.Some?
    ensures forall r: nat :: r in table.value <==> r < Pow2(n)
    ensures forall r: nat :: r < Pow2(n) ==> table.value[r] == if IsTrueRow(n, t, r) then 1 else 0
    ensures forall r: nat :: r < Pow2(n) && r in t && (t[r] == 0 || t[r] == 1) ==> table.value[r] == t[r]
  {
    eq := SimplifiedEquation(n, t);
    table := ParseEquationToTable(eq, n);
    ghost var ps: seq<Cube> :| (forall c :: c in ps <==> IsPrime(n, t, c)) && eq == FormatTerms(ps);
    FormatParses(n, t, ps, 0);
    forall r: nat | r < Pow2(n)
      ensures EvalRow(Tokenize(eq), n, RowBits(r, n)) == Some(IsTrueRow(n, t, r))
    {
      FormatParses(n, t, ps, r);
    }
  }
}
