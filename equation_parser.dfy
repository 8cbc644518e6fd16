/** The Boolean equation evaluator of `parseEquationToTable`: a tokenizer, a
    recursive-descent parser over a shared cursor (`+` is OR, juxtaposition is AND,
    postfix `'` is NOT, parentheses, constants 0 and 1, variables A, B, ...), and the loop
    that evaluates the equation on every row of the 2^n-row truth table. */
module EquationParser {
  import opened Bits

  datatype Option<T> = None | Some(value: T)

  // ---------------------------------------------------------------------------
  // Tokenizer

  /** `toUpperCase` on the ASCII letters. */
  function UpperChar(ch: char): char
  {
    if 'a' <= ch <= 'z' then (ch as int - 32) as char else ch
  }

  /** Curly single quotes and the backtick become `'`. */
  function QuoteChar(ch: char): char
  {
    if ch == '\U{2018}' || ch == '\U{2019}' || ch == '`' then '\'' else ch
  }

  /** The characters the regular-expression class `\s` matches. */
  predicate IsWhitespace(ch: char)
  {
    ch == ' ' || ch == '\t' || ch == '\n' || ch == '\U{000B}' || ch == '\U{000C}' || ch == '\r' ||
    ch == '\U{00A0}' || ch == '\U{1680}' || ('\U{2000}' <= ch <= '\U{200A}') ||
    ch == '\U{2028}' || ch == '\U{2029}' || ch == '\U{202F}' || ch == '\U{205F}' ||
    ch == '\U{3000}' || ch == '\U{FEFF}'
  }

  /** The allow-list `[A-Z0-1+()']`. */
  predicate IsTokenChar(ch: char)
  {
    ('A' <= ch <= 'Z') || ch == '0' || ch == '1' || ch == '+' || ch == '(' || ch == ')' || ch == '\''
  }

  function UpperCase(s: string): (r: string)
    ensures |r| == |s| && forall k :: 0 <= k < |s| ==> r[k] == UpperChar(s[k])
  {
    if s == [] then [] else [UpperChar(s[0])] + UpperCase(s[1..])
  }

  function ReplaceQuotes(s: string): (r: string)
    ensures |r| == |s| && forall k :: 0 <= k < |s| ==> r[k] == QuoteChar(s[k])
  {
    if s == [] then [] else [QuoteChar(s[0])] + ReplaceQuotes(s[1..])
  }

  function StripWhitespace(s: string): (r: string)
    ensures forall k :: 0 <= k < |r| ==> !IsWhitespace(r[k])
  {
    if s == [] then [] else (if IsWhitespace(s[0]) then [] else [s[0]]) + StripWhitespace(s[1..])
  }

  function KeepTokenChars(s: string): (r: string)
    ensures forall k :: 0 <= k < |r| ==> IsTokenChar(r[k])
  {
    if s == [] then [] else (if IsTokenChar(s[0]) then [s[0]] else []) + KeepTokenChars(s[1..])
  }

  /** Whitespace removal keeps every other character, in order: it works on each
      character on its own and distributes over concatenation. */
  lemma {:induction false} StripWhitespaceAppend(a: string, b: string)
    ensures StripWhitespace(a + b) == StripWhitespace(a) + StripWhitespace(b)
    ensures |a| == 1 ==> StripWhitespace(a) == if IsWhitespace(a[0]) then [] else a
  {
    if a != [] {
      assert (a + b)[0] == a[0];
      assert (a + b)[1..] == a[1..] + b;
      StripWhitespaceAppend(a[1..], b);
    } else {
      assert a + b == b;
    }
  }

  /** The allow-list filter keeps every allowed character, in order. */
  lemma {:induction false} KeepTokenCharsAppend(a: string, b: string)
    ensures KeepTokenChars(a + b) == KeepTokenChars(a) + KeepTokenChars(b)
    ensures |a| == 1 ==> KeepTokenChars(a) == if IsTokenChar(a[0]) then a else []
  {
    if a != [] {
      assert (a + b)[0] == a[0];
      assert (a + b)[1..] == a[1..] + b;
      KeepTokenCharsAppend(a[1..], b);
    } else {
      assert a + b == b;
    }
  }

  /** The token list: upper-case, normalise quotes, drop whitespace, keep the allow-list. */
  function Tokenize(equation: string): string
  {
    KeepTokenChars(StripWhitespace(ReplaceQuotes(UpperCase(equation))))
  }

  /** The tokenizer works character by character: the tokens of one character. */
  function CharTokens(ch: char): string
  {
    var u := QuoteChar(UpperChar(ch));
    if IsTokenChar(u) then [u] else []
  }

  /** The token list built character by character. */
  function CharwiseTokens(s: string): string
  {
    if s == [] then [] else CharTokens(s[0]) + CharwiseTokens(s[1..])
  }

  lemma {:induction false} TokenizeStep(s: string)
    requires s != []
    ensures Tokenize(s) == CharTokens(s[0]) + Tokenize(s[1..])
  {
    var q := ReplaceQuotes(UpperCase(s));
    var c := QuoteChar(UpperChar(s[0]));
    assert UpperCase(s)[1..] == UpperCase(s[1..]);
    assert q[1..] == ReplaceQuotes(UpperCase(s[1..]));
    var rest := StripWhitespace(q[1..]);
    if IsWhitespace(c) {
      assert StripWhitespace(q) == rest;
    } else {
      assert StripWhitespace(q) == [c] + rest;
      assert ([c] + rest)[1..] == rest;
    }
  }

  /** The four passes of the tokenizer act on each character on its own. */
  lemma {:induction false} TokenizeByChar(s: string)
    ensures Tokenize(s) == CharwiseTokens(s)
  {
    if s != [] {
      TokenizeStep(s);
      TokenizeByChar(s[1..]);
    }
  }

  lemma {:induction false} CharwiseAppend(a: string, b: string)
    ensures CharwiseTokens(a + b) == CharwiseTokens(a) + CharwiseTokens(b)
  {
    if a != [] {
      assert (a + b)[0] == a[0];
      assert (a + b)[1..] == a[1..] + b;
      CharwiseAppend(a[1..], b);
    } else {
      assert a + b == b;
    }
  }

  /** Tokenizing a concatenation tokenizes the parts. */
  lemma TokenizeAppend(a: string, b: string)
    ensures Tokenize(a + b) == Tokenize(a) + Tokenize(b)
  {
    TokenizeByChar(a + b);
    TokenizeByChar(a);
    TokenizeByChar(b);
    CharwiseAppend(a, b);
  }

  /** A text made of tokens only is its own token list. */
  lemma {:induction false} TokenizeTokens(s: string)
    requires forall k :: 0 <= k < |s| ==> IsTokenChar(s[k])
    ensures Tokenize(s) == s
  {
    if s != [] {
      TokenizeStep(s);
      TokenizeTokens(s[1..]);
    }
  }

  /** Lower-case letters, curly quotes and the backtick are kept, whitespace and
      everything outside the allow-list is dropped. */
  lemma CharTokensCases(ch: char)
    ensures 'a' <= ch <= 'z' ==> CharTokens(ch) == [(ch as int - 32) as char]
    ensures ch == '\U{2018}' || ch == '\U{2019}' || ch == '`' ==> CharTokens(ch) == "'"
    ensures IsWhitespace(ch) ==> CharTokens(ch) == []
    ensures IsTokenChar(ch) ==> CharTokens(ch) == [ch]
  {
  }

  // ---------------------------------------------------------------------------
  // The grammar, as functions over the token list and a cursor

  /** A successful parse: the value and the cursor after it. */
  datatype Parsed = Parsed(value: bool, pos: nat)

  /** parseExpression: Term ('+' Term)*. */
  function Expr(toks: string, n: nat, scope: seq<bool>, p: nat): (r: Option<Parsed>)
    requires p <= |toks|
    ensures r.Some? ==> p < r.value.pos <= |toks|
    decreases |toks| - p, 3
  {
    match Term(toks, n, scope, p)
    case None => None
    case Some(left) => ExprTail(toks, n, scope, left.value, left.pos)
  }

  /** The `while (peek() === '+')` loop of parseExpression, with the value so far. */
  function ExprTail(toks: string, n: nat, scope: seq<bool>, left: bool, p: nat): (r: Option<Parsed>)
    requires p <= |toks|
    ensures r.Some? ==> p <= r.value.pos <= |toks|
    decreases |toks| - p, 2
  {
    if p < |toks| && toks[p] == '+' then
      match Term(toks, n, scope, p + 1)
      case None => None
      case Some(right) => ExprTail(toks, n, scope, left || right.value, right.pos)
    else Some(Parsed(left, p))
  }

  /** parseTerm: Factor Factor*, the juxtaposition AND. */
  function Term(toks: string, n: nat, scope: seq<bool>, p: nat): (r: Option<Parsed>)
    requires p <= |toks|
    ensures r.Some? ==> p < r.value.pos <= |toks|
    decreases |toks| - p, 1
  {
    match Factor(toks, n, scope, p)
    case None => None
    case Some(left) => TermTail(toks, n, scope, left.value, left.pos)
  }

  /** The loop of parseTerm: more factors while the next token is neither `+` nor `)`. */
  function TermTail(toks: string, n: nat, scope: seq<bool>, left: bool, p: nat): (r: Option<Parsed>)
    requires p <= |toks|
    ensures r.Some? ==> p <= r.value.pos <= |toks|
    decreases |toks| - p, 1
  {
    if p < |toks| && toks[p] != '+' && toks[p] != ')' then
      match Factor(toks, n, scope, p)
      case None => None
      case Some(right) => TermTail(toks, n, scope, left && right.value, right.pos)
    else Some(Parsed(left, p))
  }

  /** The index of a variable letter (A is 0). */
  function VarIndex(tok: char): int
  {
    tok as int - 'A' as int
  }

  /** parseFactor: '(' Expr ')' | variable | '0' | '1', then any number of `'`. */
  function Factor(toks: string, n: nat, scope: seq<bool>, p: nat): (r: Option<Parsed>)
    requires p <= |toks|
    ensures r.Some? ==> p < r.value.pos <= |toks|
    decreases |toks| - p, 0
  {
    if p >= |toks| then None
    else if toks[p] == '(' then
      match Expr(toks, n, scope, p + 1)
      case None => None
      case Some(inner) =>
        if inner.pos < |toks| && toks[inner.pos] == ')' then Postfix(toks, inner.value, inner.pos + 1) else None
    else if 'A' <= toks[p] <= 'Z' then
      var idx := VarIndex(toks[p]);
      if idx >= n then None else Postfix(toks, idx < |scope| && scope[idx], p + 1)
    else if toks[p] == '0' then Postfix(toks, false, p + 1)
    else if toks[p] == '1' then Postfix(toks, true, p + 1)
    else None
  }

  /** The `while (peek() === "'")` loop: each quote negates. */
  function Postfix(toks: string, v: bool, p: nat): (r: Option<Parsed>)
    requires p <= |toks|
    ensures r.Some? && p <= r.value.pos <= |toks|
    decreases |toks| - p
  {
    if p < |toks| && toks[p] == '\'' then Postfix(toks, !v, p + 1) else Some(Parsed(v, p))
  }

  /** One row: the whole token list must parse as one expression, with no tokens left. */
  function EvalRow(toks: string, n: nat, scope: seq<bool>): Option<bool>
  {
    match Expr(toks, n, scope, 0)
    case None => None
    case Some(e) => if e.pos < |toks| then None else Some(e.value)
  }

  /** The equation's token list is accepted (on the first row, hence on all). */
  predicate Accepts(toks: string, n: nat)
  {
    EvalRow(toks, n, RowBits(0, n)).Some?
  }

  // ---------------------------------------------------------------------------
  // Parsing does not depend on the values of the variables

  /** Where a parse ends, or that it fails. */
  function EndOf(r: Option<Parsed>): Option<nat>
  {
    match r
    case None => None
    case Some(x) => Some(x.pos)
  }

  lemma {:induction false} ExprShape(toks: string, n: nat, s1: seq<bool>, s2: seq<bool>, p: nat)
    requires p <= |toks|
    ensures EndOf(Expr(toks, n, s1, p)) == EndOf(Expr(toks, n, s2, p))
    decreases |toks| - p, 3
  {
    TermShape(toks, n, s1, s2, p);
    var t1, t2 := Term(toks, n, s1, p), Term(toks, n, s2, p);
    if t1.Some? {
      ExprTailShape(toks, n, s1, s2, t1.value.value, t2.value.value, t1.value.pos);
    }
  }

  lemma {:induction false} ExprTailShape(toks: string, n: nat, s1: seq<bool>, s2: seq<bool>, l1: bool, l2: bool, p: nat)
    requires p <= |toks|
    ensures EndOf(ExprTail(toks, n, s1, l1, p)) == EndOf(ExprTail(toks, n, s2, l2, p))
    decreases |toks| - p, 2
  {
    if p < |toks| && toks[p] == '+' {
      TermShape(toks, n, s1, s2, p + 1);
      var t1, t2 := Term(toks, n, s1, p + 1), Term(toks, n, s2, p + 1);
      if t1.Some? {
        ExprTailShape(toks, n, s1, s2, l1 || t1.value.value, l2 || t2.value.value, t1.value.pos);
      }
    }
  }

  lemma {:induction false} TermShape(toks: string, n: nat, s1: seq<bool>, s2: seq<bool>, p: nat)
    requires p <= |toks|
    ensures EndOf(Term(toks, n, s1, p)) == EndOf(Term(toks, n, s2, p))
    decreases |toks| - p, 1, 1
  {
    FactorShape(toks, n, s1, s2, p);
    var f1, f2 := Factor(toks, n, s1, p), Factor(toks, n, s2, p);
    if f1.Some? {
      TermTailShape(toks, n, s1, s2, f1.value.value, f2.value.value, f1.value.pos);
    }
  }

  lemma {:induction false} TermTailShape(toks: string, n: nat, s1: seq<bool>, s2: seq<bool>, l1: bool, l2: bool, p: nat)
    requires p <= |toks|
    ensures EndOf(TermTail(toks, n, s1, l1, p)) == EndOf(TermTail(toks, n, s2, l2, p))
    decreases |toks| - p, 1, 1
  {
    if p < |toks| && toks[p] != '+' && toks[p] != ')' {
      FactorShape(toks, n, s1, s2, p);
      var f1, f2 := Factor(toks, n, s1, p), Factor(toks, n, s2, p);
      if f1.Some? {
        TermTailShape(toks, n, s1, s2, l1 && f1.value.value, l2 && f2.value.value, f1.value.pos);
      }
    }
  }

  lemma {:induction false} FactorShape(toks: string, n: nat, s1: seq<bool>, s2: seq<bool>, p: nat)
    requires p <= |toks|
    ensures EndOf(Factor(toks, n, s1, p)) == EndOf(Factor(toks, n, s2, p))
    decreases |toks| - p, 0
  {
    if p < |toks| {
      if toks[p] == '(' {
        ExprShape(toks, n, s1, s2, p + 1);
        var e1, e2 := Expr(toks, n, s1, p + 1), Expr(toks, n, s2, p + 1);
        if e1.Some? && e1.value.pos < |toks| && toks[e1.value.pos] == ')' {
          PostfixShape(toks, e1.value.value, e2.value.value, e1.value.pos + 1);
        }
      } else if 'A' <= toks[p] <= 'Z' {
        var idx := VarIndex(toks[p]);
        if idx < n {
          PostfixShape(toks, idx < |s1| && s1[idx], idx < |s2| && s2[idx], p + 1);
        }
      } else if toks[p] == '0' {
        PostfixShape(toks, false, false, p + 1);
      } else if toks[p] == '1' {
        PostfixShape(toks, true, true, p + 1);
      }
    }
  }

  lemma {:induction false} PostfixShape(toks: string, v1: bool, v2: bool, p: nat)
    requires p <= |toks|
    ensures EndOf(Postfix(toks, v1, p)) == EndOf(Postfix(toks, v2, p))
    decreases |toks| - p
  {
    if p < |toks| && toks[p] == '\'' {
      PostfixShape(toks, !v1, !v2, p + 1);
    }
  }

  /** Value independence: whether a row parses does not depend on the row. */
  lemma AcceptsEveryRow(toks: string, n: nat, s1: seq<bool>, s2: seq<bool>)
    ensures EvalRow(toks, n, s1).Some? <==> EvalRow(toks, n, s2).Some?
  {
    ExprShape(toks, n, s1, s2, 0);
  }

  /** Concrete cases over one input A: a doubled quote cancels, juxtaposition binds
      tighter than `+`, and a missing `)`, a stray `)`, an unknown variable, an empty
      equation and a lone operator are all rejected. */
  lemma ParseExamples(a: bool)
    ensures EvalRow("A''", 1, [a]) == Some(a)
    ensures EvalRow("0A+1", 1, [a]) == Some(true)
    ensures EvalRow("(A", 1, [a]) == None
    ensures EvalRow("A)", 1, [a]) == None
    ensures EvalRow("B", 1, [a]) == None
    ensures EvalRow("", 1, [a]) == None
    ensures EvalRow("+", 1, [a]) == None
  {
  }

  /** Postfix `'` toggles: an even number of quotes leaves the value, an odd number negates it. */
  lemma {:induction false} PostfixToggles(toks: string, v: bool, p: nat, q: nat)
    requires p <= q <= |toks|
    requires forall k :: p <= k < q ==> toks[k] == '\''
    requires q == |toks| || toks[q] != '\''
    ensures Postfix(toks, v, p) == Some(Parsed(if (q - p) % 2 == 0 then v else !v, q))
    decreases q - p
  {
    if p < q {
      PostfixToggles(toks, !v, p + 1, q);
    }
  }

  // ---------------------------------------------------------------------------
  // What a successful parse has consumed

  /** Every variable letter between the cursors `p` and `q` names one of the n inputs. */
  predicate KnownVars(toks: string, n: nat, p: nat, q: nat)
  {
    forall k :: p <= k < q && k < |toks| && 'A' <= toks[k] <= 'Z' ==> VarIndex(toks[k]) < n
  }

  /** The number of occurrences of `ch` between the cursors `p` and `q`. */
  function CountIn(toks: string, ch: char, p: nat, q: nat): nat
    requires p <= q <= |toks|
    decreases q - p
  {
    if p == q then 0 else (if toks[p] == ch then 1 else 0) + CountIn(toks, ch, p + 1, q)
  }

  /** As many `(` as `)` between the cursors `p` and `q`. */
  predicate Balanced(toks: string, p: nat, q: nat)
    requires p <= q <= |toks|
  {
    CountIn(toks, '(', p, q) == CountIn(toks, ')', p, q)
  }

  lemma {:induction false} CountSplit(toks: string, ch: char, p: nat, m: nat, q: nat)
    requires p <= m <= q <= |toks|
    ensures CountIn(toks, ch, p, q) == CountIn(toks, ch, p, m) + CountIn(toks, ch, m, q)
    decreases m - p
  {
    if p < m {
      CountSplit(toks, ch, p + 1, m, q);
    }
  }

  /** Two balanced stretches side by side are balanced. */
  lemma BalancedJoin(toks: string, p: nat, m: nat, q: nat)
    requires p <= m <= q <= |toks|
    requires Balanced(toks, p, m) && Balanced(toks, m, q)
    ensures Balanced(toks, p, q)
  {
    CountSplit(toks, '(', p, m, q);
    CountSplit(toks, ')', p, m, q);
  }

  /** The postfix loop consumes quotes only: no variable and no parenthesis. */
  lemma {:induction false} PostfixConsumes(toks: string, v: bool, p: nat)
    requires p <= |toks|
    ensures KnownVars(toks, 0, p, Postfix(toks, v, p).value.pos)
    ensures Balanced(toks, p, Postfix(toks, v, p).value.pos)
    decreases |toks| - p
  {
    if p < |toks| && toks[p] == '\'' {
      PostfixConsumes(toks, !v, p + 1);
    }
  }

  /** A successful parse of an expression uses only known variables and balanced parentheses. */
  lemma {:induction false} ExprConsumes(toks: string, n: nat, scope: seq<bool>, p: nat)
    requires p <= |toks|
    ensures Expr(toks, n, scope, p).Some? ==> var q := Expr(toks, n, scope, p).value.pos;
      KnownVars(toks, n, p, q) && Balanced(toks, p, q)
    decreases |toks| - p, 3
  {
    TermConsumes(toks, n, scope, p);
    var t := Term(toks, n, scope, p);
    if t.Some? {
      ExprTailConsumes(toks, n, scope, t.value.value, t.value.pos);
      var e := ExprTail(toks, n, scope, t.value.value, t.value.pos);
      if e.Some? {
        BalancedJoin(toks, p, t.value.pos, e.value.pos);
      }
    }
  }

  lemma {:induction false} ExprTailConsumes(toks: string, n: nat, scope: seq<bool>, left: bool, p: nat)
    requires p <= |toks|
    ensures ExprTail(toks, n, scope, left, p).Some? ==> var q := ExprTail(toks, n, scope, left, p).value.pos;
      KnownVars(toks, n, p, q) && Balanced(toks, p, q)
    decreases |toks| - p, 2
  {
    if p < |toks| && toks[p] == '+' {
      TermConsumes(toks, n, scope, p + 1);
      var t := Term(toks, n, scope, p + 1);
      if t.Some? {
        ExprTailConsumes(toks, n, scope, left || t.value.value, t.value.pos);
        var e := ExprTail(toks, n, scope, left || t.value.value, t.value.pos);
        if e.Some? {
          BalancedJoin(toks, p + 1, t.value.pos, e.value.pos);
          BalancedJoin(toks, p, p + 1, e.value.pos);
        }
      }
    }
  }

  lemma {:induction false} TermConsumes(toks: string, n: nat, scope: seq<bool>, p: nat)
    requires p <= |toks|
    ensures Term(toks, n, scope, p).Some? ==> var q := Term(toks, n, scope, p).value.pos;
      KnownVars(toks, n, p, q) && Balanced(toks, p, q)
    decreases |toks| - p, 1, 1
  {
    FactorConsumes(toks, n, scope, p);
    var f := Factor(toks, n, scope, p);
    if f.Some? {
      TermTailConsumes(toks, n, scope, f.value.value, f.value.pos);
      var t := TermTail(toks, n, scope, f.value.value, f.value.pos);
      if t.Some? {
        BalancedJoin(toks, p, f.value.pos, t.value.pos);
      }
    }
  }

  lemma {:induction false} TermTailConsumes(toks: string, n: nat, scope: seq<bool>, left: bool, p: nat)
    requires p <= |toks|
    ensures TermTail(toks, n, scope, left, p).Some? ==> var q := TermTail(toks, n, scope, left, p).value.pos;
      KnownVars(toks, n, p, q) && Balanced(toks, p, q)
    decreases |toks| - p, 1, 1
  {
    if p < |toks| && toks[p] != '+' && toks[p] != ')' {
      FactorConsumes(toks, n, scope, p);
      var f := Factor(toks, n, scope, p);
      if f.Some? {
        TermTailConsumes(toks, n, scope, left && f.value.value, f.value.pos);
        var t := TermTail(toks, n, scope, left && f.value.value, f.value.pos);
        if t.Some? {
          BalancedJoin(toks, p, f.value.pos, t.value.pos);
        }
      }
    }
  }

  lemma {:induction false} FactorConsumes(toks: string, n: nat, scope: seq<bool>, p: nat)
    requires p <= |toks|
    ensures Factor(toks, n, scope, p).Some? ==> var q := Factor(toks, n, scope, p).value.pos;
      KnownVars(toks, n, p, q) && Balanced(toks, p, q)
    decreases |toks| - p, 0
  {
    if p < |toks| {
      if toks[p] == '(' {
        ExprConsumes(toks, n, scope, p + 1);
        var e := Expr(toks, n, scope, p + 1);
        if e.Some? && e.value.pos < |toks| && toks[e.value.pos] == ')' {
          var m := e.value.pos;
          PostfixConsumes(toks, e.value.value, m + 1);
          var q := Postfix(toks, e.value.value, m + 1).value.pos;
          CountSplit(toks, '(', p + 1, m, m + 1);
          CountSplit(toks, ')', p + 1, m, m + 1);
          BalancedJoin(toks, p, m + 1, q);
        }
      } else if 'A' <= toks[p] <= 'Z' {
        var idx := VarIndex(toks[p]);
        if idx < n {
          PostfixConsumes(toks, idx < |scope| && scope[idx], p + 1);
        }
      } else if toks[p] == '0' {
        PostfixConsumes(toks, false, p + 1);
      } else if toks[p] == '1' {
        PostfixConsumes(toks, true, p + 1);
      }
    }
  }

  /** A variable letter beyond the n inputs makes the equation invalid on every row. */
  lemma UnknownVariableRejected(toks: string, n: nat, scope: seq<bool>, k: nat)
    requires k < |toks| && 'A' <= toks[k] <= 'Z' && VarIndex(toks[k]) >= n
    ensures EvalRow(toks, n, scope) == None
    ensures !Accepts(toks, n)
  {
    ExprConsumes(toks, n, scope, 0);
    ExprConsumes(toks, n, RowBits(0, n), 0);
  }

  /** A missing `)` or a stray `)` makes the equation invalid on every row. */
  lemma UnbalancedRejected(toks: string, n: nat, scope: seq<bool>)
    requires !Balanced(toks, 0, |toks|)
    ensures EvalRow(toks, n, scope) == None
    ensures !Accepts(toks, n)
  {
    ExprConsumes(toks, n, scope, 0);
    ExprConsumes(toks, n, RowBits(0, n), 0);
  }

  /** An empty equation, or one that starts with an operator, is invalid for every n. */
  lemma LeadingOperatorRejected(toks: string, n: nat, scope: seq<bool>)
    requires toks == [] || toks[0] == '+' || toks[0] == ')' || toks[0] == '\''
    ensures EvalRow(toks, n, scope) == None
    ensures !Accepts(toks, n)
  {
    assert Factor(toks, n, scope, 0) == None;
    assert Term(toks, n, scope, 0) == None;
    assert Factor(toks, n, RowBits(0, n), 0) == None;
    assert Term(toks, n, RowBits(0, n), 0) == None;
  }

  // ---------------------------------------------------------------------------
  // The parser with its shared cursor

  /** The parser state shared by the three parse functions: the token list, the number of
      inputs, the cursor `pos` and the current row's variable values `scope`. */
  class Parser {
    const tokens: string
    const numInputs: nat
    var pos: nat
    var scope: seq<bool>

    constructor (tokens: string, numInputs: nat)
      ensures this.tokens == tokens && this.numInputs == numInputs
      ensures pos == 0 && scope == []
    {
      this.tokens := tokens;
      this.numInputs := numInputs;
      pos := 0;
      scope := [];
    }

    /** The method result and cursor are those of the grammar function. */
    ghost predicate Reflects(r: Option<bool>, spec: Option<Parsed>)
      reads this
    {
      (r.None? <==> spec.None?) && (r.Some? ==> spec.Some? && r.value == spec.value.value && pos == spec.value.pos)
    }

    method ParseExpression() returns (r: Option<bool>)
      requires pos <= |tokens|
      modifies this`pos
      ensures Reflects(r, Expr(tokens, numInputs, scope, old(pos)))
      decreases |tokens| - pos, 3
    {
      ghost var spec := Expr(tokens, numInputs, scope, pos);
      var left := ParseTerm();
      if left.None? {
        return None;
      }
      var value := left.value;
      while pos < |tokens| && tokens[pos] == '+'
        invariant pos <= |tokens|
        invariant ExprTail(tokens, numInputs, scope, value, pos) == spec
        decreases |tokens| - pos
      {
        pos := pos + 1;
        var right := ParseTerm();
        if right.None? {
          return None;
        }
        value := value || right.value;
      }
      r := Some(value);
    }

    method ParseTerm() returns (r: Option<bool>)
      requires pos <= |tokens|
      modifies this`pos
      ensures Reflects(r, Term(tokens, numInputs, scope, old(pos)))
      decreases |tokens| - pos, 2
    {
      ghost var spec := Term(tokens, numInputs, scope, pos);
      var left := ParseFactor();
      if left.None? {
        return None;
      }
      var value := left.value;
      while pos < |tokens| && tokens[pos] != '+' && tokens[pos] != ')'
        invariant pos <= |tokens|
        invariant TermTail(tokens, numInputs, scope, value, pos) == spec
        decreases |tokens| - pos
      {
        var right := ParseFactor();
        if right.None? {
          return None;
        }
        value := value && right.value;
      }
      r := Some(value);
    }

    method ParseFactor() returns (r: Option<bool>)
      requires pos <= |tokens|
      modifies this`pos
      ensures Reflects(r, Factor(tokens, numInputs, scope, old(pos)))
      decreases |tokens| - pos, 1
    {
      ghost var spec := Factor(tokens, numInputs, scope, pos);
      if pos >= |tokens| {
        return None;
      }
      var token := tokens[pos];
      pos := pos + 1;
      var value: bool;
      if token == '(' {
        var inner := ParseExpression();
        if inner.None? {
          return None;
        }
        if pos >= |tokens| || tokens[pos] != ')' {
          return None;
        }
        pos := pos + 1;
        value := inner.value;
      } else if 'A' <= token <= 'Z' {
        var varIndex := VarIndex(token);
        if varIndex >= numInputs {
          return None;
        }
        value := varIndex < |scope| && scope[varIndex];
      } else if token == '0' {
        value := false;
      } else if token == '1' {
        value := true;
      } else {
        return None;
      }
      while pos < |tokens| && tokens[pos] == '\''
        invariant pos <= |tokens|
        invariant Postfix(tokens, value, pos) == spec
        decreases |tokens| - pos
      {
        pos := pos + 1;
        value := !value;
      }
      r := Some(value);
    }
  }

  /** The table a successful run produces: rows 0..2^n-1, each 1 exactly where the equation holds. */
  ghost predicate IsTableOf(table: map<nat, int>, toks: string, n: nat)
  {
    (forall r: nat :: r in table <==> r < Pow2(n)) &&
    forall r: nat :: r < Pow2(n) ==>
      EvalRow(toks, n, RowBits(r, n)).Some? &&
      table[r] == if EvalRow(toks, n, RowBits(r, n)).value then 1 else 0
  }

  /** `parseEquationToTable`: None on any syntax error, unknown variable or leftover token;
      otherwise the truth table of the equation. */
  method ParseEquationToTable(equation: string, numInputs: nat) returns (r: Option<map<nat, int>>)
    ensures r.Some? <==> Accepts(Tokenize(equation), numInputs)
    ensures r.Some? ==> IsTableOf(r.value, Tokenize(equation), numInputs)
  {
    var tokens := Tokenize(equation);
    var parser := new Parser(tokens, numInputs);
    var table: map<nat, int> := map[];
    var maxRows := Pow2(numInputs);
    var i: nat := 0;
    while i < maxRows
      invariant i <= maxRows
      invariant forall row: nat :: row in table <==> row < i
      invariant forall row: nat :: row < i ==>
        EvalRow(tokens, numInputs, RowBits(row, numInputs)).Some? &&
        table[row] == if EvalRow(tokens, numInputs, RowBits(row, numInputs)).value then 1 else 0
      invariant i > 0 ==> Accepts(tokens, numInputs)
    {
      parser.scope := RowBits(i, numInputs);
      parser.pos := 0;
      var result := parser.ParseExpression();
      if result.None? || parser.pos < |tokens| {
        AcceptsEveryRow(tokens, numInputs, RowBits(i, numInputs), RowBits(0, numInputs));
        return None;
      }
      AcceptsEveryRow(tokens, numInputs, RowBits(i, numInputs), RowBits(0, numInputs));
      table := table[i := if result.value then 1 else 0];
      i := i + 1;
    }
    r := Some(table);
  }
}
