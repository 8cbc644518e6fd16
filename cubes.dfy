/** Ternary cubes: the strings over '0', '1' and '-' that the simplifier and the
    circuit generator pass around. Position k of a cube of width n talks about
    variable k (A = 0), so it lines up with digit k of `Bits.RowBits`. */
module Cubes {

  /** One position of a cube: a fixed bit '0', a fixed bit '1', or the dash '-'. */
  datatype Sym = Zero | One | Dash

  type Cube = seq<Sym>

  /** Position s lets the input value b through ('-' lets both through). */
  predicate Agrees(s: Sym, b: bool)
  {
    s == Dash || (s == One) == b
  }

  /** The cube matches the assignment: every non-dash position equals the input's bit. */
  predicate Matches(c: Cube, a: seq<bool>)
  {
    |c| == |a| && forall k :: 0 <= k < |c| ==> Agrees(c[k], a[k])
  }

  /** The minterm cube of an assignment: no dashes. */
  function Minterm(a: seq<bool>): (c: Cube)
    ensures |c| == |a|
    ensures forall k :: 0 <= k < |a| ==> c[k] == (if a[k] then One else Zero)
  {
    if a == [] then [] else Minterm(a[..|a| - 1]) + [if a[|a| - 1] then One else Zero]
  }

  /** The cube of n dashes, the constant-1 term. */
  function AllDash(n: nat): (c: Cube)
    ensures |c| == n && forall k :: 0 <= k < n ==> c[k] == Dash
  {
    seq(n, _ => Dash)
  }

  /** Every position is a dash (the `every(c => c === '-')` test). */
  predicate IsAllDash(c: Cube)
  {
    forall k :: 0 <= k < |c| ==> c[k] == Dash
  }

  function DashCount(c: Cube): (r: nat)
    ensures r <= |c|
  {
    if c == [] then 0 else DashCount(c[..|c| - 1]) + (if c[|c| - 1] == Dash then 1 else 0)
  }

  /** The number of non-dash positions (the product term's literals). */
  function LiteralCount(c: Cube): nat
  {
    |c| - DashCount(c)
  }

  /** Number of positions below k at which the two cubes differ (the `diffCount` of the merge step). */
  function DiffCount(a: Cube, b: Cube, k: nat): nat
    requires k <= |a| && k <= |b|
  {
    if k == 0 then 0 else DiffCount(a, b, k - 1) + (if a[k - 1] != b[k - 1] then 1 else 0)
  }

  /** a and b have the same width and differ at position d and nowhere else. */
  predicate DiffersOnlyAt(a: Cube, b: Cube, d: nat)
  {
    |a| == |b| && d < |a| && a[d] != b[d] &&
    forall k :: 0 <= k < |a| && k != d ==> a[k] == b[k]
  }

  /** The cube with one fixed bit turned over. */
  function Flip(c: Cube, d: nat): (f: Cube)
    requires d < |c| && c[d] != Dash
    ensures DiffersOnlyAt(c, f, d) && f[d] != Dash
  {
    c[d := if c[d] == One then Zero else One]
  }

  lemma {:induction false} DashCountUpdate(c: Cube, d: nat, s: Sym)
    requires d < |c|
    ensures DashCount(c[d := s]) + (if c[d] == Dash then 1 else 0)
         == DashCount(c) + (if s == Dash then 1 else 0)
  {
    var c' := c[d := s];
    if d < |c| - 1 {
      assert c'[..|c'| - 1] == c[..|c| - 1][d := s];
      DashCountUpdate(c[..|c| - 1], d, s);
    } else {
      assert c'[..|c'| - 1] == c[..|c| - 1];
    }
  }

  lemma {:induction false} DiffCountZero(a: Cube, b: Cube, k: nat)
    requires k <= |a| && k <= |b|
    ensures DiffCount(a, b, k) == 0 <==> forall j :: 0 <= j < k ==> a[j] == b[j]
  {
    if k > 0 {
      DiffCountZero(a, b, k - 1);
    }
  }

  /** When exactly one position below k differs, it is any position found to differ. */
  lemma {:induction false} DiffCountOne(a: Cube, b: Cube, k: nat, d: nat)
    requires k <= |a| && k <= |b| && d < k && a[d] != b[d]
    ensures DiffCount(a, b, k) == 1 <==> forall j :: 0 <= j < k && j != d ==> a[j] == b[j]
  {
    if k - 1 == d {
      DiffCountZero(a, b, k - 1);
    } else {
      DiffCountOne(a, b, k - 1, d);
      if a[k - 1] != b[k - 1] {
        DiffCountZero(a, b, k - 1);
      }
    }
  }

  /** Two cubes with equally many dashes that differ at only one position differ there
      in a fixed bit, and setting a dash there gives the same cube, one dash deeper. */
  lemma MergeLevel(a: Cube, b: Cube, d: nat)
    requires DiffersOnlyAt(a, b, d) && DashCount(a) == DashCount(b)
    ensures a[d] != Dash && b[d] != Dash
    ensures a[d := Dash] == b[d := Dash]
    ensures DashCount(a[d := Dash]) == DashCount(a) + 1
  {
    DashCountUpdate(a, d, Dash);
    DashCountUpdate(b, d, Dash);
    assert a[d := Dash] == b[d := Dash];
  }

  /** The merged cube matches exactly what one of its two halves matches. */
  lemma MergeMatches(a: Cube, b: Cube, d: nat, x: seq<bool>)
    requires DiffersOnlyAt(a, b, d) && a[d] != Dash && b[d] != Dash
    ensures Matches(a[d := Dash], x) <==> Matches(a, x) || Matches(b, x)
  {
    if Matches(a[d := Dash], x) {
      if Agrees(a[d], x[d]) {
        assert Matches(a, x);
      } else {
        assert Agrees(b[d], x[d]);
        assert Matches(b, x);
      }
    }
  }

  /** A cube with a dash at d is the merge of its two halves with a fixed bit at d. */
  lemma SplitAtDash(c: Cube, d: nat)
    requires d < |c| && c[d] == Dash
    ensures DiffersOnlyAt(c[d := Zero], c[d := One], d)
    ensures c[d := Zero][d := Dash] == c
    ensures DashCount(c[d := Zero]) + 1 == DashCount(c) && DashCount(c[d := One]) + 1 == DashCount(c)
  {
    DashCountUpdate(c, d, Zero);
    DashCountUpdate(c, d, One);
  }

  /** A cube without dashes matches exactly one assignment, its own. */
  lemma MintermMatches(a: seq<bool>, x: seq<bool>)
    ensures Matches(Minterm(a), x) <==> x == a
  {
    if Matches(Minterm(a), x) {
      assert forall k :: 0 <= k < |a| ==> x[k] == a[k];
    }
  }

  lemma {:induction false} MintermNoDash(a: seq<bool>)
    ensures DashCount(Minterm(a)) == 0
  {
    if a != [] {
      MintermNoDash(a[..|a| - 1]);
      assert Minterm(a)[..|a| - 1] == Minterm(a[..|a| - 1]);
    }
  }

  /** The all-dash cube is the only cube of its width with n dashes. */
  lemma {:induction false} FullDashCount(c: Cube)
    ensures DashCount(c) == |c| <==> c == AllDash(|c|)
  {
    if c != [] {
      var init := c[..|c| - 1];
      FullDashCount(init);
      if c == AllDash(|c|) {
        assert init == AllDash(|init|);
      }
      if DashCount(c) == |c| {
        assert init == AllDash(|init|);
        assert c == init + [c[|c| - 1]];
      }
    }
  }

  /** Any assignment that sets every fixed bit of c (dashes read as 0) is matched by c. */
  function Witness(c: Cube): (a: seq<bool>)
    ensures Matches(c, a)
  {
    seq(|c|, k requires 0 <= k < |c| => c[k] == One)
  }
}
