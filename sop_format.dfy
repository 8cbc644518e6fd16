/** The sum-of-products formatter of `getSimplifiedEquation`: each cube becomes a product
    of variable letters (a `'` after a letter whose bit is 0), the products are ordered by
    length and then by text, and joined with " + ". */
module SopFormat {
  import opened Bits
  import opened Cubes
  import opened BooleanSimplifier

  /** The most variables the letters A..Z can name. */
  const MaxVariables := 26

  /** `getVar`: the letter of variable i (A for 0). */
  function Letter(i: nat): (ch: char)
    requires i < MaxVariables
    ensures 'A' <= ch <= 'Z' && ch as int - 'A' as int == i
  {
    (65 + i) as char
  }

  /** The text one position contributes: its letter for '1', letter and `'` for '0', nothing for '-'. */
  function LiteralText(s: Sym, i: nat): string
    requires i < MaxVariables
  {
    match s
    case One => [Letter(i)]
    case Zero => [Letter(i), '\'']
    case Dash => ""
  }

  /** The literals of a cube, in position order. */
  function Literals(c: Cube): string
    requires |c| <= MaxVariables
  {
    if c == [] then "" else Literals(c[..|c| - 1]) + LiteralText(c[|c| - 1], |c| - 1)
  }

  /** The product text of one term; a term without literals reads "1". */
  function TermText(c: Cube): string
    requires |c| <= MaxVariables
  {
    var part := Literals(c);
    if part == "" then "1" else part
  }

  /** The `part` loop of the formatter, with its `part || "1"`. */
  method RenderTerm(term: Cube) returns (part: string)
    requires |term| <= MaxVariables
    ensures part == TermText(term)
  {
    part := "";
    var i := 0;
    while i < |term|
      invariant i <= |term|
      invariant part == Literals(term[..i])
    {
      assert term[..i + 1][..i] == term[..i];
      if term[i] == One {
        part := part + [Letter(i)];
      }
      if term[i] == Zero {
        part := part + [Letter(i)] + "'";
      }
      i := i + 1;
    }
    assert term[..i] == term;
    if part == "" {
      part := "1";
    }
  }

  /** Lexicographic order by character code, the stand-in for `localeCompare`. */
  predicate LexLeq(a: string, b: string)
  {
    a == [] || (b != [] && (a[0] < b[0] || (a[0] == b[0] && LexLeq(a[1..], b[1..]))))
  }

  /** The comparator of the sort: shorter first, then lexicographic. */
  predicate TextLeq(a: string, b: string)
  {
    |a| < |b| || (|a| == |b| && LexLeq(a, b))
  }

  lemma {:induction false} LexLeqTotal(a: string, b: string)
    ensures LexLeq(a, b) || LexLeq(b, a)
  {
    if a != [] && b != [] && a[0] == b[0] {
      LexLeqTotal(a[1..], b[1..]);
    }
  }

  lemma TextLeqTotal(a: string, b: string)
    ensures TextLeq(a, b) || TextLeq(b, a)
  {
    LexLeqTotal(a, b);
  }

  predicate Sorted(s: seq<string>)
  {
    forall i :: 0 < i < |s| ==> TextLeq(s[i - 1], s[i])
  }

  function Insert(x: string, s: seq<string>): (r: seq<string>)
    ensures |r| == |s| + 1
    ensures r[0] == x || (s != [] && r[0] == s[0])
  {
    if s == [] || TextLeq(x, s[0]) then [x] + s else [s[0]] + Insert(x, s[1..])
  }

  /** Insertion sort with TextLeq. */
  function SortTexts(s: seq<string>): (r: seq<string>)
    ensures |r| == |s|
  {
    if s == [] then [] else Insert(s[0], SortTexts(s[1..]))
  }

  lemma {:induction false} InsertSorted(x: string, s: seq<string>)
    requires Sorted(s)
    ensures Sorted(Insert(x, s)) && multiset(Insert(x, s)) == multiset(s) + multiset{x}
  {
    if s == [] || TextLeq(x, s[0]) {
    } else {
      InsertSorted(x, s[1..]);
      TextLeqTotal(x, s[0]);
      assert s == [s[0]] + s[1..];
    }
  }

  /** The sorted terms are ordered by length then text, and they are the same terms. */
  lemma {:induction false} SortTextsCorrect(s: seq<string>)
    ensures Sorted(SortTexts(s)) && multiset(SortTexts(s)) == multiset(s)
  {
    if s != [] {
      SortTextsCorrect(s[1..]);
      InsertSorted(s[0], SortTexts(s[1..]));
      assert s == [s[0]] + s[1..];
    }
  }

  /** The parts joined with the separator. */
  function Join(parts: seq<string>, sep: string): string
  {
    if parts == [] then "" else if |parts| == 1 then parts[0] else parts[0] + sep + Join(parts[1..], sep)
  }

  function TermTexts(terms: seq<Cube>): (r: seq<string>)
    requires forall c :: c in terms ==> |c| <= MaxVariables
    ensures |r| == |terms|
  {
    if terms == [] then [] else [TermText(terms[0])] + TermTexts(terms[1..])
  }

  /** Entry j of the printed list is the printed cube j. */
  lemma {:induction false} TermTextsAt(terms: seq<Cube>, j: nat)
    requires forall c :: c in terms ==> |c| <= MaxVariables
    requires j < |terms|
    ensures TermTexts(terms)[j] == TermText(terms[j])
  {
    if j > 0 {
      TermTextsAt(terms[1..], j - 1);
    }
  }

  /** The formatter over a given list of implicants. */
  function FormatTerms(implicants: seq<Cube>): string
    requires forall c :: c in implicants ==> |c| <= MaxVariables
  {
    if implicants == [] then "0"
    else if IsAllDash(implicants[0]) then "1"
    else Join(SortTexts(TermTexts(implicants)), " + ")
  }

  /** The `implicants.map(...)` step: every implicant rendered, in order. */
  method RenderTerms(implicants: seq<Cube>) returns (terms: seq<string>)
    requires forall c :: c in implicants ==> |c| <= MaxVariables
    ensures terms == TermTexts(implicants)
  {
    terms := [];
    var j := 0;
    while j < |implicants|
      invariant j <= |implicants|
      invariant terms == TermTexts(implicants[..j])
    {
      var part := RenderTerm(implicants[j]);
      assert implicants[..j + 1] == implicants[..j] + [implicants[j]];
      TermTextsAppend(implicants[..j], implicants[j]);
      terms := terms + [part];
      j := j + 1;
    }
    assert implicants[..j] == implicants;
  }

  /** The constant cases of the formatter, for the prime implicants of a table. */
  lemma FormatConstants(n: nat, t: TruthTable, ps: seq<Cube>)
    requires n <= MaxVariables
    requires forall c :: c in ps <==> IsPrime(n, t, c)
    requires forall c :: c in ps ==> |c| == n
    ensures FormatTerms(ps) == "0" <==> forall r: nat :: !IsTrueRow(n, t, r)
    ensures (forall r: nat :: r < Pow2(n) ==> IsTrueRow(n, t, r)) ==> FormatTerms(ps) == "1"
  {
    if forall r: nat :: !IsTrueRow(n, t, r) {
      if ps != [] {
        assert ps[0] in ps;
        NoTrueRowNoImplicant(n, t, ps[0]);
      }
    } else {
      var r: nat :| IsTrueRow(n, t, r);
      PrimesCoverExactlyTrueRows(n, t, ps, r);
      if !IsAllDash(ps[0]) {
        SortTextsCorrect(TermTexts(ps));
        JoinNotZero(SortTexts(TermTexts(ps)), ps);
      }
    }
    if forall r: nat :: r < Pow2(n) ==> IsTrueRow(n, t, r) {
      PrimesCoverExactlyTrueRows(n, t, ps, 0);
      assert ps[0] in ps;
      AllTrueOnlyAllDash(n, t, ps[0]);
    }
  }

  /** The XNOR of A and B: its primes are 00 and 11, printed shorter product first. */
  lemma XnorExample()
    ensures FormatTerms([[Zero, Zero], [One, One]]) == "AB + A'B'"
  {
    assert TermText([Zero, Zero]) == "A'B'" by {
      assert Literals([Zero]) == "A'";
    }
    assert TermText([One, One]) == "AB" by {
      assert Literals([One]) == "A";
    }
  }

  /** `getSimplifiedEquation`: the prime implicants of the table, rendered. */
  method SimplifiedEquation(n: nat, t: TruthTable) returns (eq: string)
    requires n <= MaxVariables
    ensures exists ps: seq<Cube> :: (forall c :: c in ps <==> IsPrime(n, t, c)) && NoDuplicates(ps) && eq == FormatTerms(ps)
    ensures eq == "0" <==> forall r: nat :: !IsTrueRow(n, t, r)
    ensures (forall r: nat :: r < Pow2(n) ==> IsTrueRow(n, t, r)) ==> eq == "1"
  {
    var implicants := PrimeImplicants(n, t);
    assert forall c :: c in implicants ==> |c| <= MaxVariables;
    if |implicants| == 0 {
      eq := "0";
    } else if IsAllDash(implicants[0]) {
      eq := "1";
    } else {
      var terms := RenderTerms(implicants);
      eq := Join(SortTexts(terms), " + ");
    }
    assert eq == FormatTerms(implicants);
    FormatConstants(n, t, implicants);
  }

  lemma {:induction false} TermTextsAppend(terms: seq<Cube>, c: Cube)
    requires forall c' :: c' in terms ==> |c'| <= MaxVariables
    requires |c| <= MaxVariables
    ensures TermTexts(terms + [c]) == TermTexts(terms) + [TermText(c)]
  {
    if terms != [] {
      TermTextsAppend(terms[1..], c);
      assert (terms + [c])[1..] == terms[1..] + [c];
    }
  }

  /** Literal texts consist of letters and quotes only. */
  lemma {:induction false} LiteralsChars(c: Cube)
    requires |c| <= MaxVariables
    ensures forall k :: 0 <= k < |Literals(c)| ==> ('A' <= Literals(c)[k] <= 'Z' || Literals(c)[k] == '\'')
  {
    if c != [] {
      LiteralsChars(c[..|c| - 1]);
    }
  }

  /** A non-constant cover is never rendered as "0". */
  lemma JoinNotZero(parts: seq<string>, implicants: seq<Cube>)
    requires parts != [] && forall c :: c in implicants ==> |c| <= MaxVariables
    requires multiset(parts) == multiset(TermTexts(implicants))
    ensures Join(parts, " + ") != "0"
  {
    if |parts| == 1 {
      assert parts[0] in multiset(TermTexts(implicants));
      var j :| 0 <= j < |implicants| && TermTexts(implicants)[j] == parts[0];
      TermTextsAt(implicants, j);
      LiteralsChars(implicants[j]);
      if Literals(implicants[j]) != "" {
        assert Literals(implicants[j])[0] != '0';
      }
    } else {
      assert Join(parts, " + ")[|parts[0]|] == ' ';
    }
  }
}
