/** The Quine-McCluskey prime-implicant generator of `getPrimeImplicants`. */
module BooleanSimplifier {
  import opened Bits
  import opened Cubes

  /** A truth table: row index to output value. Rows that are absent read as 0. */
  type TruthTable = map<nat, int>

  /** Row r is in range for n inputs and its output is exactly 1. */
  predicate IsTrueRow(n: nat, t: TruthTable, r: nat)
  {
    r < Pow2(n) && r in t && t[r] == 1
  }

  /** Every row the cube matches is a true row. */
  ghost predicate IsImplicant(n: nat, t: TruthTable, c: Cube)
  {
    |c| == n && forall r: nat :: r < Pow2(n) && Matches(c, RowBits(r, n)) ==> IsTrueRow(n, t, r)
  }

  /** An implicant none of whose fixed bits can be turned over without matching a false row:
      it cannot be merged with any other implicant of its own level. */
  ghost predicate IsPrime(n: nat, t: TruthTable, c: Cube)
  {
    IsImplicant(n, t, c) &&
    forall d :: 0 <= d < |c| && c[d] != Dash ==> !IsImplicant(n, t, Flip(c, d))
  }

  predicate NoDuplicates<T(==)>(s: seq<T>)
  {
    forall i, j :: 0 <= i < j < |s| ==> s[i] != s[j]
  }

  /** Some term of the list matches the assignment: the sum of products. */
  predicate AnyMatch(terms: seq<Cube>, a: seq<bool>)
  {
    exists j :: 0 <= j < |terms| && Matches(terms[j], a)
  }

  // ---------------------------------------------------------------------------
  // Facts about implicants

  lemma MatchesSomeRow(n: nat, c: Cube)
    requires |c| == n
    ensures FromBits(Witness(c)) < Pow2(n) && Matches(c, RowBits(FromBits(Witness(c)), n))
  {
    EveryAssignmentIsARow(Witness(c));
  }

  /** Fixing a dash of an implicant gives an implicant. */
  lemma FixDashIsImplicant(n: nat, t: TruthTable, c: Cube, d: nat, s: Sym)
    requires IsImplicant(n, t, c) && d < |c| && c[d] == Dash
    ensures IsImplicant(n, t, c[d := s])
  {
    forall r: nat | r < Pow2(n) && Matches(c[d := s], RowBits(r, n))
      ensures IsTrueRow(n, t, r)
    {
      assert Matches(c, RowBits(r, n));
    }
  }

  /** Merging two implicants that differ in one fixed bit gives an implicant. */
  lemma MergeIsImplicant(n: nat, t: TruthTable, a: Cube, b: Cube, d: nat)
    requires IsImplicant(n, t, a) && IsImplicant(n, t, b)
    requires DiffersOnlyAt(a, b, d) && a[d] != Dash && b[d] != Dash
    ensures IsImplicant(n, t, a[d := Dash])
  {
    forall r: nat | r < Pow2(n) && Matches(a[d := Dash], RowBits(r, n))
      ensures IsTrueRow(n, t, r)
    {
      MergeMatches(a, b, d, RowBits(r, n));
    }
  }

  lemma {:induction false} SomeDash(c: Cube) returns (d: nat)
    requires DashCount(c) > 0
    ensures d < |c| && c[d] == Dash
  {
    if c[|c| - 1] == Dash {
      d := |c| - 1;
    } else {
      d := SomeDash(c[..|c| - 1]);
    }
  }

  lemma {:induction false} NoDashIsMinterm(c: Cube)
    requires DashCount(c) == 0
    ensures c == Minterm(Witness(c))
  {
    forall k | 0 <= k < |c|
      ensures c[k] != Dash
    {
      if c[k] == Dash {
        DashCountUpdate(c, k, Zero);
      }
    }
  }

  /** If no implicant has j dashes, none has more. */
  lemma {:induction false} NoImplicantsAbove(n: nat, t: TruthTable, j: nat, c: Cube)
    requires forall c' :: IsImplicant(n, t, c') ==> DashCount(c') != j
    requires IsImplicant(n, t, c) && DashCount(c) >= j
    ensures false
    decreases DashCount(c)
  {
    if DashCount(c) > j {
      var d := SomeDash(c);
      FixDashIsImplicant(n, t, c, d, Zero);
      SplitAtDash(c, d);
      NoImplicantsAbove(n, t, j, c[d := Zero]);
    }
  }

  /** An implicant at the same level that differs from c in one position is a flip of c. */
  lemma PartnerIsFlip(c: Cube, x: Cube, d: nat)
    requires DiffersOnlyAt(c, x, d) && DashCount(c) == DashCount(x)
    ensures c[d] != Dash && x == Flip(c, d)
  {
    MergeLevel(c, x, d);
  }

  // ---------------------------------------------------------------------------
  // Constant functions

  /** With no true row there is no implicant, hence no prime implicant. */
  lemma NoTrueRowNoImplicant(n: nat, t: TruthTable, c: Cube)
    requires forall r: nat :: !IsTrueRow(n, t, r)
    ensures !IsImplicant(n, t, c)
  {
    if |c| == n {
      MatchesSomeRow(n, c);
    }
  }

  /** With every row true the only prime implicant is the cube of n dashes. */
  lemma AllTrueOnlyAllDash(n: nat, t: TruthTable, c: Cube)
    requires forall r: nat :: r < Pow2(n) ==> IsTrueRow(n, t, r)
    ensures IsPrime(n, t, c) <==> c == AllDash(n)
  {
    if c == AllDash(n) {
      assert IsImplicant(n, t, c);
    } else if |c| == n {
      var k :| 0 <= k < n && c[k] != Dash;
      assert IsImplicant(n, t, Flip(c, k));
    }
  }

  /** A true row exists as soon as the all-dash cube is an implicant. */
  lemma AllDashImplicantMeansAllTrue(n: nat, t: TruthTable)
    requires IsImplicant(n, t, AllDash(n))
    ensures forall r: nat :: r < Pow2(n) ==> IsTrueRow(n, t, r)
  {
    forall r: nat | r < Pow2(n) ensures IsTrueRow(n, t, r) {
      assert Matches(AllDash(n), RowBits(r, n));
    }
  }

  // ---------------------------------------------------------------------------
  // Prime implicants cover exactly the true rows

  /** Every implicant matching x grows into a prime implicant matching x. */
  lemma {:induction false} ExtendToPrime(n: nat, t: TruthTable, c: Cube, x: seq<bool>) returns (p: Cube)
    requires IsImplicant(n, t, c) && Matches(c, x)
    ensures IsPrime(n, t, p) && Matches(p, x)
    decreases n - DashCount(c)
  {
    if IsPrime(n, t, c) {
      p := c;
    } else {
      var d :| 0 <= d < |c| && c[d] != Dash && IsImplicant(n, t, Flip(c, d));
      var f := Flip(c, d);
      MergeIsImplicant(n, t, c, f, d);
      MergeMatches(c, f, d, x);
      DashCountUpdate(c, d, Dash);
      p := ExtendToPrime(n, t, c[d := Dash], x);
    }
  }

  /** The minterm of a true row is an implicant. */
  lemma MintermIsImplicant(n: nat, t: TruthTable, r: nat)
    requires IsTrueRow(n, t, r)
    ensures IsImplicant(n, t, Minterm(RowBits(r, n)))
  {
    var x := RowBits(r, n);
    forall r': nat | r' < Pow2(n) && Matches(Minterm(x), RowBits(r', n))
      ensures IsTrueRow(n, t, r')
    {
      MintermMatches(x, RowBits(r', n));
      RowBitsInjective(r, r', n);
    }
  }

  /** Soundness and completeness: a row is matched by some prime implicant iff it is a true row. */
  lemma PrimesCoverExactlyTrueRows(n: nat, t: TruthTable, ps: seq<Cube>, r: nat)
    requires forall c :: c in ps <==> IsPrime(n, t, c)
    requires r < Pow2(n)
    ensures AnyMatch(ps, RowBits(r, n)) <==> IsTrueRow(n, t, r)
  {
    var x := RowBits(r, n);
    if AnyMatch(ps, x) {
      var j :| 0 <= j < |ps| && Matches(ps[j], x);
      assert ps[j] in ps;
    }
    if IsTrueRow(n, t, r) {
      MintermIsImplicant(n, t, r);
      MintermMatches(x, x);
      var p := ExtendToPrime(n, t, Minterm(x), x);
      assert p in ps;
      var j :| 0 <= j < |ps| && ps[j] == p;
    }
  }

  /** The prime implicants depend only on which in-range rows are 1. */
  lemma OnlyTrueRowsMatter(n: nat, t1: TruthTable, t2: TruthTable, c: Cube)
    requires forall r: nat :: IsTrueRow(n, t1, r) <==> IsTrueRow(n, t2, r)
    ensures IsPrime(n, t1, c) <==> IsPrime(n, t2, c)
  {
    assert forall c' :: IsImplicant(n, t1, c') <==> IsImplicant(n, t2, c');
  }

  /** The worked example: over three inputs with rows 6 and 7 true, 110 and 111
      merge into 11-, which is prime. */
  lemma MergeExample()
    ensures DiffersOnlyAt([One, One, Zero], [One, One, One], 2)
    ensures [One, One, Zero][2 := Dash] == [One, One, Dash]
    ensures IsPrime(3, map[6 := 1, 7 := 1], [One, One, Dash])
  {
    var t: TruthTable := map[6 := 1, 7 := 1];
    var c := [One, One, Dash];
    forall r: nat | r < Pow2(3) && Matches(c, RowBits(r, 3))
      ensures IsTrueRow(3, t, r)
    {
      assert RowBits(r, 3)[0] && RowBits(r, 3)[1];
      RowBitsAt(r, 3, 0);
      RowBitsAt(r, 3, 1);
    }
    assert Matches(Flip(c, 0), RowBits(2, 3));
    assert Matches(Flip(c, 1), RowBits(4, 3));
  }

  // ---------------------------------------------------------------------------
  // The algorithm

  /** The rows whose output is 1, below 2^n, in ascending order (the minterm filter). */
  method TrueRows(n: nat, t: TruthTable) returns (minterms: seq<nat>)
    ensures forall r: nat :: r in minterms <==> IsTrueRow(n, t, r)
    ensures forall i, j :: 0 <= i < j < |minterms| ==> minterms[i] < minterms[j]
    ensures |minterms| == Pow2(n) <==> forall r: nat :: r < Pow2(n) ==> IsTrueRow(n, t, r)
  {
    var maxRows := Pow2(n);
    minterms := [];
    var i: nat := 0;
    while i < maxRows
      invariant i <= maxRows
      invariant forall r: nat :: r in minterms <==> r < i && IsTrueRow(n, t, r)
      invariant forall p, q :: 0 <= p < q < |minterms| ==> minterms[p] < minterms[q]
      invariant forall p :: 0 <= p < |minterms| ==> minterms[p] < i
      invariant |minterms| <= i
      invariant |minterms| == i <==> forall r: nat :: r < i ==> IsTrueRow(n, t, r)
    {
      if i in t && t[i] == 1 {
        minterms := minterms + [i];
      } else {
        assert !IsTrueRow(n, t, i);
      }
      i := i + 1;
    }
  }

  /** The diffIdx/diffCount scan over the n positions of two cubes. */
  method CountDifferences(s1: Cube, s2: Cube, n: nat) returns (diffIdx: int, diffCount: nat)
    requires |s1| == n && |s2| == n
    ensures diffCount == DiffCount(s1, s2, n)
    ensures diffCount == 1 ==> 0 <= diffIdx < n && DiffersOnlyAt(s1, s2, diffIdx)
    ensures diffCount != 1 ==> forall d :: !DiffersOnlyAt(s1, s2, d)
  {
    diffIdx, diffCount := -1, 0;
    var k := 0;
    while k < n
      invariant k <= n
      invariant diffCount == DiffCount(s1, s2, k)
      invariant diffIdx == -1 ==> diffCount == 0
      invariant diffIdx != -1 ==> 0 <= diffIdx < k && s1[diffIdx] != s2[diffIdx]
    {
      if s1[k] != s2[k] {
        diffIdx := k;
        diffCount := diffCount + 1;
      }
      k := k + 1;
    }
    if diffCount == 1 {
      DiffCountOne(s1, s2, n, diffIdx);
    } else {
      forall d | DiffersOnlyAt(s1, s2, d)
        ensures false
      {
        DiffCountOne(s1, s2, n, d);
      }
    }
  }

  /** c has a partner in the group: a cube that differs from it at exactly one position. */
  ghost predicate HasPartner(groups: seq<Cube>, c: Cube)
  {
    exists j, d: nat :: 0 <= j < |groups| && DiffersOnlyAt(c, groups[j], d)
  }

  /** c is the merge of two cubes of the group that differ at exactly one position. */
  ghost predicate IsMergeOf(groups: seq<Cube>, c: Cube)
  {
    exists i, j, d: nat :: 0 <= i < |groups| && 0 <= j < |groups| &&
      DiffersOnlyAt(groups[i], groups[j], d) && c == groups[i][d := Dash]
  }

  /** Two cubes of the group one position apart merge into a cube of the next group,
      and each is the other's partner. */
  lemma MergedPair(groups: seq<Cube>, i: nat, j: nat, d: nat)
    requires i < |groups| && j < |groups| && DiffersOnlyAt(groups[i], groups[j], d)
    ensures IsMergeOf(groups, groups[i][d := Dash])
    ensures HasPartner(groups, groups[i]) && HasPartner(groups, groups[j])
  {
    assert DiffersOnlyAt(groups[j], groups[i], d);
  }

  /** The body of the inner loop for the pair (i, j): when the two cubes differ at exactly
      one position, their merge joins the next group and both are marked used. */
  method ComparePair(n: nat, groups: seq<Cube>, i: nat, j: nat, next0: seq<Cube>, used0: set<Cube>)
    returns (next: seq<Cube>, used: set<Cube>)
    requires i < |groups| && j < |groups|
    requires |groups[i]| == n && |groups[j]| == n
    requires NoDuplicates(next0)
    requires forall c :: c in next0 ==> IsMergeOf(groups, c)
    requires forall c :: c in used0 ==> HasPartner(groups, c)
    ensures NoDuplicates(next)
    ensures forall c :: c in next ==> IsMergeOf(groups, c)
    ensures forall c :: c in used ==> HasPartner(groups, c)
    ensures forall c :: c in next0 ==> c in next
    ensures used0 <= used
    ensures forall d: nat :: DiffersOnlyAt(groups[i], groups[j], d) ==>
      groups[i][d := Dash] in next && groups[i] in used && groups[j] in used
  {
    next, used := next0, used0;
    var s1, s2 := groups[i], groups[j];
    var diffIdx, diffCount := CountDifferences(s1, s2, n);
    if diffCount == 1 {
      var combined := s1[..diffIdx] + [Dash] + s1[diffIdx + 1..];
      assert combined == s1[diffIdx := Dash];
      MergedPair(groups, i, j, diffIdx);
      if combined !in next {
        next := next + [combined];
      }
      used := used + {s1, s2};
      forall d: nat | DiffersOnlyAt(s1, s2, d)
        ensures d == diffIdx
      {
      }
    }
  }

  /** The inner loop of the pair scan for the cube at index i: it is compared with every
      later cube, and each pair one position apart is merged and marked used. */
  method MergeWithLater(n: nat, groups: seq<Cube>, i: nat, next0: seq<Cube>, used0: set<Cube>)
    returns (next: seq<Cube>, used: set<Cube>)
    requires i < |groups|
    requires forall c :: c in groups ==> |c| == n
    requires NoDuplicates(next0)
    requires forall c :: c in next0 ==> IsMergeOf(groups, c)
    requires forall c :: c in used0 ==> HasPartner(groups, c)
    ensures NoDuplicates(next)
    ensures forall c :: c in next ==> IsMergeOf(groups, c)
    ensures forall c :: c in used ==> HasPartner(groups, c)
    ensures forall c :: c in next0 ==> c in next
    ensures used0 <= used
    ensures forall j', d: nat :: i < j' < |groups| && DiffersOnlyAt(groups[i], groups[j'], d) ==>
      groups[i][d := Dash] in next && groups[i] in used && groups[j'] in used
  {
    next, used := next0, used0;
    var j := i + 1;
    while j < |groups|
      invariant i < j <= |groups|
      invariant NoDuplicates(next)
      invariant forall c :: c in next ==> IsMergeOf(groups, c)
      invariant forall c :: c in used ==> HasPartner(groups, c)
      invariant forall c :: c in next0 ==> c in next
      invariant used0 <= used
      invariant forall j', d: nat :: i < j' < j && DiffersOnlyAt(groups[i], groups[j'], d) ==>
        groups[i][d := Dash] in next && groups[i] in used && groups[j'] in used
    {
      assert groups[i] in groups && groups[j] in groups;
      next, used := ComparePair(n, groups, i, j, next, used);
      j := j + 1;
    }
  }

  /** The pair scan of one level: every pair of cubes one position apart is merged into
      the next group, and both are marked used. */
  method MergePairs(n: nat, groups: seq<Cube>) returns (next: seq<Cube>, used: set<Cube>)
    requires forall c :: c in groups ==> |c| == n
    requires forall g, h :: 0 <= g < |groups| && 0 <= h < |groups| ==> DashCount(groups[g]) == DashCount(groups[h])
    ensures NoDuplicates(next)
    ensures forall c :: c in next ==> IsMergeOf(groups, c)
    ensures forall i, j, d: nat :: 0 <= i < |groups| && 0 <= j < |groups| && DiffersOnlyAt(groups[i], groups[j], d) ==>
      groups[i][d := Dash] in next
    ensures forall c :: c in groups ==> (c in used <==> HasPartner(groups, c))
  {
    next, used := [], {};
    var i := 0;
    while i < |groups|
      invariant i <= |groups|
      invariant NoDuplicates(next)
      invariant forall c :: c in next ==> IsMergeOf(groups, c)
      invariant forall i', j', d: nat :: 0 <= i' < i && i' < j' < |groups| && DiffersOnlyAt(groups[i'], groups[j'], d) ==>
        groups[i'][d := Dash] in next && groups[i'] in used && groups[j'] in used
      invariant forall c :: c in used ==> HasPartner(groups, c)
    {
      next, used := MergeWithLater(n, groups, i, next, used);
      i := i + 1;
    }
    forall c | c in groups && HasPartner(groups, c)
      ensures c in used
    {
      var g :| 0 <= g < |groups| && groups[g] == c;
      var h: nat, d: nat :| h < |groups| && DiffersOnlyAt(c, groups[h], d);
      assert DiffersOnlyAt(groups[h], c, d);
    }
    forall i, j, d: nat | 0 <= i < |groups| && 0 <= j < |groups| && DiffersOnlyAt(groups[i], groups[j], d)
      ensures groups[i][d := Dash] in next
    {
      MergeLevel(groups[i], groups[j], d);
      assert DiffersOnlyAt(groups[j], groups[i], d);
    }
  }
  /** The group holds exactly the implicants with k dashes. */
  ghost predicate IsLevel(n: nat, t: TruthTable, groups: seq<Cube>, k: nat)
  {
    forall c :: c in groups <==> IsImplicant(n, t, c) && DashCount(c) == k
  }

  /** `toBin`: the minterm cube of row m, n characters wide. */
  function ToBin(m: nat, n: nat): (c: Cube)
    ensures |c| == n && DashCount(c) == 0
    ensures forall x :: Matches(c, x) <==> x == RowBits(m, n)
  {
    MintermNoDash(RowBits(m, n));
    forall x ensures Matches(Minterm(RowBits(m, n)), x) <==> x == RowBits(m, n) {
      MintermMatches(RowBits(m, n), x);
    }
    Minterm(RowBits(m, n))
  }

  /** The first group, the minterm cubes of the true rows, is level 0. */
  lemma MintermsAreLevelZero(n: nat, t: TruthTable, minterms: seq<nat>, groups: seq<Cube>)
    requires forall r: nat :: r in minterms <==> IsTrueRow(n, t, r)
    requires |groups| == |minterms| && forall j :: 0 <= j < |minterms| ==> groups[j] == ToBin(minterms[j], n)
    ensures IsLevel(n, t, groups, 0)
  {
    forall c ensures c in groups <==> IsImplicant(n, t, c) && DashCount(c) == 0 {
      if c in groups {
        var j :| 0 <= j < |groups| && groups[j] == c;
        MintermIsImplicant(n, t, minterms[j]);
      }
      if IsImplicant(n, t, c) && DashCount(c) == 0 {
        NoDashIsMinterm(c);
        MatchesSomeRow(n, c);
        var m := FromBits(Witness(c));
        RowBitsOfFromBits(Witness(c));
        assert IsTrueRow(n, t, m);
        var j :| 0 <= j < |minterms| && minterms[j] == m;
        assert groups[j] == c;
      }
    }
  }

  /** Within a level, having a partner in the group is the same as not being prime. */
  lemma PartnerIffNotPrime(n: nat, t: TruthTable, groups: seq<Cube>, k: nat, c: Cube)
    requires IsLevel(n, t, groups, k) && c in groups
    ensures HasPartner(groups, c) <==> !IsPrime(n, t, c)
  {
    if HasPartner(groups, c) {
      var j: nat, d: nat :| j < |groups| && DiffersOnlyAt(c, groups[j], d);
      assert groups[j] in groups;
      PartnerIsFlip(c, groups[j], d);
    }
    if !IsPrime(n, t, c) {
      var d :| 0 <= d < |c| && c[d] != Dash && IsImplicant(n, t, Flip(c, d));
      DashCountUpdate(c, d, Flip(c, d)[d]);
      var j :| 0 <= j < |groups| && groups[j] == Flip(c, d);
      assert DiffersOnlyAt(c, groups[j], d);
    }
  }

  /** A merge of two cubes of level k is an implicant with k + 1 dashes. */
  lemma MergedIsNextLevel(n: nat, t: TruthTable, groups: seq<Cube>, k: nat, c: Cube)
    requires IsLevel(n, t, groups, k) && IsMergeOf(groups, c)
    ensures IsImplicant(n, t, c) && DashCount(c) == k + 1
  {
    var i: nat, j: nat, d: nat :| i < |groups| && j < |groups| &&
      DiffersOnlyAt(groups[i], groups[j], d) && c == groups[i][d := Dash];
    assert groups[i] in groups && groups[j] in groups;
    MergeLevel(groups[i], groups[j], d);
    MergeIsImplicant(n, t, groups[i], groups[j], d);
  }

  /** An implicant with k + 1 dashes is the merge of two cubes of level k. */
  lemma NextLevelIsMerged(n: nat, t: TruthTable, groups: seq<Cube>, k: nat, c: Cube)
    requires IsLevel(n, t, groups, k) && IsImplicant(n, t, c) && DashCount(c) == k + 1
    ensures IsMergeOf(groups, c)
  {
    var d := SomeDash(c);
    SplitAtDash(c, d);
    FixDashIsImplicant(n, t, c, d, Zero);
    FixDashIsImplicant(n, t, c, d, One);
    var i :| 0 <= i < |groups| && groups[i] == c[d := Zero];
    var j :| 0 <= j < |groups| && groups[j] == c[d := One];
    assert DiffersOnlyAt(groups[i], groups[j], d);
  }

  /** Merging all pairs of level k gives exactly level k + 1. */
  lemma NextLevel(n: nat, t: TruthTable, groups: seq<Cube>, k: nat, next: seq<Cube>)
    requires IsLevel(n, t, groups, k)
    requires forall c :: c in next ==> IsMergeOf(groups, c)
    requires forall i, j, d: nat :: 0 <= i < |groups| && 0 <= j < |groups| && DiffersOnlyAt(groups[i], groups[j], d) ==>
      groups[i][d := Dash] in next
    ensures IsLevel(n, t, next, k + 1)
  {
    forall c ensures c in next <==> IsImplicant(n, t, c) && DashCount(c) == k + 1 {
      if c in next {
        MergedIsNextLevel(n, t, groups, k, c);
      }
      if IsImplicant(n, t, c) && DashCount(c) == k + 1 {
        NextLevelIsMerged(n, t, groups, k, c);
        var i: nat, j: nat, d: nat :| i < |groups| && j < |groups| &&
          DiffersOnlyAt(groups[i], groups[j], d) && c == groups[i][d := Dash];
      }
    }
  }

  /** The `forEach` after the pair scan: every cube of the group not marked used is added
      to the prime set (a duplicate-free sequence in insertion order). */
  method CollectUnused(groups: seq<Cube>, used: set<Cube>, primes0: seq<Cube>) returns (primes: seq<Cube>)
    requires NoDuplicates(primes0)
    ensures NoDuplicates(primes)
    ensures forall c :: c in primes <==> c in primes0 || (c in groups && c !in used)
  {
    primes := primes0;
    var idx := 0;
    while idx < |groups|
      invariant idx <= |groups|
      invariant NoDuplicates(primes)
      invariant forall c :: c in primes <==> c in primes0 || (c in groups[..idx] && c !in used)
    {
      var s := groups[idx];
      if s !in used && s !in primes {
        primes := primes + [s];
      }
      assert groups[..idx + 1] == groups[..idx] + [s];
      idx := idx + 1;
    }
    assert groups[..idx] == groups;
  }

  /** One round of the main loop: after collecting the unused cubes of level k, the prime
      set holds exactly the prime implicants with at most k dashes. */
  lemma CollectedRound(n: nat, t: TruthTable, groups: seq<Cube>, k: nat, used: set<Cube>,
                       before: seq<Cube>, primes: seq<Cube>)
    requires IsLevel(n, t, groups, k)
    requires forall c :: c in groups ==> (c in used <==> HasPartner(groups, c))
    requires forall c :: c in before <==> IsPrime(n, t, c) && DashCount(c) < k
    requires forall c :: c in primes <==> c in before || (c in groups && c !in used)
    ensures forall c :: c in primes <==> IsPrime(n, t, c) && DashCount(c) < k + 1
  {
    forall c ensures c in primes <==> IsPrime(n, t, c) && DashCount(c) < k + 1 {
      if c in groups {
        PartnerIffNotPrime(n, t, groups, k, c);
      }
    }
  }

  /** When level k + 1 is empty, no prime implicant has more than k dashes. */
  lemma LastRound(n: nat, t: TruthTable, k: nat, primes: seq<Cube>)
    requires IsLevel(n, t, [], k + 1)
    requires forall c :: c in primes <==> IsPrime(n, t, c) && DashCount(c) < k + 1
    ensures forall c :: c in primes <==> IsPrime(n, t, c)
  {
    forall c | IsPrime(n, t, c) ensures DashCount(c) < k + 1 {
      if DashCount(c) >= k + 1 {
        NoImplicantsAbove(n, t, k + 1, c);
      }
    }
  }

  /** The `while (groups.length > 0)` loop of `getPrimeImplicants`, from the minterms
      (level 0) on: each round merges a level and keeps the cubes nothing merged with. */
  method MergeLevels(n: nat, t: TruthTable, groups0: seq<Cube>) returns (primes: seq<Cube>)
    requires IsLevel(n, t, groups0, 0) && groups0 != []
    ensures forall c :: c in primes <==> IsPrime(n, t, c)
    ensures NoDuplicates(primes)
  {
    var groups := groups0;
    primes := [];
    ghost var k: nat := 0;
    while |groups| > 0
      invariant IsLevel(n, t, groups, k) && groups != []
      invariant k <= n
      invariant forall c :: c in primes <==> IsPrime(n, t, c) && DashCount(c) < k
      invariant NoDuplicates(primes)
      decreases n - k
    {
      assert groups[0] in groups;
      var next, used := MergePairs(n, groups);
      ghost var before := primes;
      primes := CollectUnused(groups, used, primes);
      CollectedRound(n, t, groups, k, used, before, primes);
      NextLevel(n, t, groups, k, next);
      if |next| == 0 {
        LastRound(n, t, k, primes);
        break;
      }
      assert next[0] in next;
      groups := next;
      k := k + 1;
    }
  }

  /** `getPrimeImplicants`: the prime implicants of the in-range true rows, each exactly once. */
  method PrimeImplicants(n: nat, t: TruthTable) returns (primes: seq<Cube>)
    ensures forall c :: c in primes <==> IsPrime(n, t, c)
    ensures NoDuplicates(primes)
    ensures primes == [] <==> forall r: nat :: !IsTrueRow(n, t, r)
    ensures (forall r: nat :: r < Pow2(n) ==> IsTrueRow(n, t, r)) <==> primes == [AllDash(n)]
  {
    var maxRows := Pow2(n);
    var minterms := TrueRows(n, t);
    if |minterms| == 0 {
      forall c ensures !IsPrime(n, t, c) {
        NoTrueRowNoImplicant(n, t, c);
      }
      return [];
    }
    assert IsTrueRow(n, t, minterms[0]);
    if |minterms| == maxRows {
      forall c ensures IsPrime(n, t, c) <==> c == AllDash(n) {
        AllTrueOnlyAllDash(n, t, c);
      }
      return [AllDash(n)];
    }
    var groups := seq(|minterms|, j requires 0 <= j < |minterms| => ToBin(minterms[j], n));
    MintermsAreLevelZero(n, t, minterms, groups);
    primes := MergeLevels(n, t, groups);
    PrimesCoverExactlyTrueRows(n, t, primes, minterms[0]);
    if primes == [AllDash(n)] {
      assert AllDash(n) in primes;
      AllDashImplicantMeansAllTrue(n, t);
    }
  }
}
