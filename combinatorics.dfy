/** Binomial coefficients and the lexicographic k-subset enumeration used by every
    solver generation (`nCrBig` and `getCombinations`). */
module Combinatorics {
  import opened Common

  // ---------------------------------------------------------------------------
  // Binomial coefficients
  // ---------------------------------------------------------------------------

  /** Pascal's rule: the number of k-element subsets of an n-element set. This is the
      reference definition against which the multiplicative loop of `nCrBig` is proved. */
  function Choose(n: nat, k: nat): nat
    decreases n
  {
    if k == 0 then 1
    else if n == 0 then 0
    else Choose(n - 1, k - 1) + Choose(n - 1, k)
  }

  function Fact(n: nat): (r: nat)
    ensures r >= 1
  {
    if n == 0 then 1 else n * Fact(n - 1)
  }

  /** What `nCrBig` promises for arbitrary (big) integers: 0 outside 0 <= k <= n. */
  function NCr(n: int, k: int): nat
  {
    if k < 0 || k > n then 0 else Choose(n, k)
  }

  lemma {:induction false} ChooseBeyond(n: nat, k: nat)
    requires k > n
    ensures Choose(n, k) == 0
  {
    if n > 0 {
      ChooseBeyond(n - 1, k - 1);
      ChooseBeyond(n - 1, k);
    }
  }

  /** There is at least one way to pick k of n items when k <= n. */
  lemma {:induction false} ChoosePositive(n: nat, k: nat)
    requires k <= n
    ensures Choose(n, k) >= 1
  {
    if k > 0 {
      ChoosePositive(n - 1, k - 1);
    }
  }

  lemma {:induction false} ChooseOne(n: nat)
    ensures Choose(n, 1) == n
  {
    if n > 0 {
      ChooseOne(n - 1);
    }
  }

  lemma {:induction false} ChooseAll(n: nat)
    ensures Choose(n, n) == 1
  {
    if n > 0 {
      ChooseAll(n - 1);
      ChooseBeyond(n - 1, n);
    }
  }

  /** Symmetry, which `nCrBig` relies on when it replaces k by n - k. */
  lemma {:induction false} ChooseSymmetric(n: nat, k: nat)
    requires k <= n
    ensures Choose(n, k) == Choose(n, n - k)
  {
    if k == 0 {
      ChooseAll(n);
    } else if k == n {
      ChooseAll(n);
    } else {
      ChooseSymmetric(n - 1, k - 1);
      ChooseSymmetric(n - 1, k);
    }
  }

  /** The step of the multiplicative formula: C(n, k) * k == C(n, k - 1) * (n - k + 1),
      so every division in `nCrBig` is exact. */
  lemma {:induction false} ChooseStep(n: nat, k: nat)
    requires 1 <= k
    ensures k * Choose(n, k) == (n - k + 1) * Choose(n, k - 1)
  {
    if n == 0 {
    } else if k == 1 {
      ChooseOne(n);
    } else {
      var a := Choose(n - 1, k - 1);
      var b := Choose(n - 1, k);
      var c := Choose(n - 1, k - 2);
      assert Choose(n, k) == a + b;
      assert Choose(n, k - 1) == c + a;
      ChooseStep(n - 1, k);
      ChooseStep(n - 1, k - 1);
      assert k * b == (n - k) * a;
      assert (k - 1) * a == (n - k + 1) * c;
      MulAddLeft(k, a, b);
      MulAddRight(k, n - k, a);
      MulAddRight(k - 1, n - k + 1, a);
      MulAddLeft(n - k + 1, c, a);
      assert k * Choose(n, k) == n * a;
      assert (n - k + 1) * Choose(n, k - 1) == n * a;
    }
  }

  /** The closed form n! / (k! (n - k)!). */
  lemma {:induction false} ChooseFactorial(n: nat, k: nat)
    requires k <= n
    ensures Choose(n, k) * (Fact(k) * Fact(n - k)) == Fact(n)
  {
    if k > 0 {
      ChooseFactorial(n, k - 1);
      ChooseStep(n, k);
      var c := Choose(n, k);
      var p := Choose(n, k - 1);
      var f := Fact(k - 1);
      var g := Fact(n - k);
      var m := n - k + 1;
      assert Fact(k) == k * f;
      assert Fact(n - (k - 1)) == m * g;
      assert k * c == m * p;
      // c * ((k * f) * g) == (k * c) * (f * g) == (m * p) * (f * g) == p * (f * (m * g))
      MulAssoc(k, f, g);
      MulComm(c, k);
      MulAssoc(c, k, f * g);
      assert c * (Fact(k) * g) == (k * c) * (f * g);
      MulAssoc(m, p, f * g);
      MulComm(m, p);
      MulAssoc(p, m, f * g);
      MulAssoc(m, f, g);
      MulComm(m, f);
      MulAssoc(f, m, g);
      assert m * (f * g) == f * (m * g);
      assert (m * p) * (f * g) == p * (f * (m * g));
    }
  }

  /** `nCrBig(n, k)`: the multiplicative loop over the smaller of k and n - k. */
  method NCrBig(n: int, k: int) returns (r: int)
    ensures r == NCr(n, k)
  {
    if k < 0 || k > n {
      return 0;
    }
    if k == 0 || k == n {
      if k == n { ChooseAll(n); }
      return 1;
    }
    var kv := k;
    if kv > n / 2 {
      kv := n - kv;
      ChooseSymmetric(n, k);
    }
    r := 1;
    var i := 1;
    while i <= kv
      invariant 1 <= i <= kv + 1
      invariant r == Choose(n, i - 1)
    {
      ChooseStep(n, i);
      DivideExact(r * (n - i + 1), i, Choose(n, i));
      r := r * (n - i + 1) / i;
      i := i + 1;
    }
  }

  // ---------------------------------------------------------------------------
  // Lexicographic k-subsets of index positions
  // ---------------------------------------------------------------------------

  /** `[start, start + 1, ..., start + len - 1]`. */
  function Run(start: int, len: nat): (r: seq<int>)
    ensures |r| == len && forall j :: 0 <= j < len ==> r[j] == start + j
  {
    seq(len, j => start + j)
  }

  function Prepend(x: int, cs: seq<seq<int>>): (r: seq<seq<int>>)
    ensures |r| == |cs| && forall j :: 0 <= j < |cs| ==> r[j] == [x] + cs[j]
  {
    seq(|cs|, j requires 0 <= j < |cs| => [x] + cs[j])
  }

  /** The strictly increasing k-sequences drawn from lo, ..., n - 1, in lexicographic order:
      the order in which `getCombinations` yields its index arrays. */
  function Combos(lo: int, n: int, k: nat): seq<seq<int>>
    decreases n - lo, k
  {
    if k == 0 then [[]]
    else if lo + k > n then []
    else Prepend(lo, Combos(lo + 1, n, k - 1)) + Combos(lo + 1, n, k)
  }

  /** An index selection: k strictly increasing positions in lo..n-1. */
  predicate Selection(c: seq<int>, lo: int, n: int, k: nat)
  {
    |c| == k && Increasing(c) && forall j :: 0 <= j < |c| ==> lo <= c[j] < n
  }

  /** Strict lexicographic order on equal-length index sequences. */
  predicate LexLess(a: seq<int>, b: seq<int>)
    decreases |a|
  {
    |a| > 0 && |b| > 0 && (a[0] < b[0] || (a[0] == b[0] && LexLess(a[1..], b[1..])))
  }

  lemma {:induction false} CombosCount(lo: int, n: int, k: nat)
    requires lo <= n
    ensures |Combos(lo, n, k)| == Choose(n - lo, k)
    decreases n - lo, k
  {
    if k == 0 {
    } else if lo + k > n {
      ChooseBeyond(n - lo, k);
    } else {
      CombosCount(lo + 1, n, k - 1);
      CombosCount(lo + 1, n, k);
    }
  }

  /** Every yielded index array is a selection. */
  lemma {:induction false} CombosSelections(lo: int, n: int, k: nat)
    ensures forall c :: c in Combos(lo, n, k) ==> Selection(c, lo, n, k)
    decreases n - lo, k
  {
    if k > 0 && lo + k <= n {
      CombosSelections(lo + 1, n, k - 1);
      CombosSelections(lo + 1, n, k);
      var a := Combos(lo + 1, n, k - 1);
      forall c | c in Prepend(lo, a) ensures Selection(c, lo, n, k) {
        var j :| 0 <= j < |a| && Prepend(lo, a)[j] == c;
        assert Selection(a[j], lo + 1, n, k - 1);
      }
    }
  }

  /** Every selection is yielded. */
  lemma {:induction false} CombosComplete(lo: int, n: int, k: nat, c: seq<int>)
    requires Selection(c, lo, n, k)
    ensures c in Combos(lo, n, k)
    decreases n - lo, k
  {
    if k == 0 {
      assert c == [];
    } else {
      assert lo <= c[0] && c[k - 1] < n;
      assert c[k - 1] >= c[0] + (k - 1) by { IncreasingSpread(c, 0, k - 1); }
      if c[0] == lo {
        CombosComplete(lo + 1, n, k - 1, c[1..]);
        CombosHead(lo, n, k, c[1..]);
        assert [lo] + c[1..] == c;
      } else {
        assert Selection(c, lo + 1, n, k) by {
          forall j | 0 <= j < |c|
            ensures lo + 1 <= c[j]
          {
            assert c[0] <= c[j];
          }
        }
        CombosComplete(lo + 1, n, k, c);
        CombosTail(lo, n, k, c);
      }
    }
  }

  /** A selection from lo + 1 on with lo in front is yielded first. */
  lemma CombosHead(lo: int, n: int, k: nat, d: seq<int>)
    requires k > 0 && lo + k <= n && d in Combos(lo + 1, n, k - 1)
    ensures [lo] + d in Combos(lo, n, k)
  {
    var a := Combos(lo + 1, n, k - 1);
    var j :| 0 <= j < |a| && a[j] == d;
    assert (Prepend(lo, a) + Combos(lo + 1, n, k))[j] == [lo] + d;
  }

  /** A selection that starts after lo is yielded after those that start at lo. */
  lemma CombosTail(lo: int, n: int, k: nat, c: seq<int>)
    requires k > 0 && lo + k <= n && c in Combos(lo + 1, n, k)
    ensures c in Combos(lo, n, k)
  {
  }

  lemma {:induction false} IncreasingSpread(c: seq<int>, i: nat, j: nat)
    requires Increasing(c) && i <= j < |c|
    ensures c[j] >= c[i] + (j - i)
    decreases j - i
  {
    if i < j {
      IncreasingSpread(c, i + 1, j);
    }
  }

  /** The enumeration is strictly increasing in lexicographic order, so no index array
      is yielded twice. */
  lemma {:induction false} CombosSorted(lo: int, n: int, k: nat)
    ensures forall i, j :: 0 <= i < j < |Combos(lo, n, k)| ==>
      LexLess(Combos(lo, n, k)[i], Combos(lo, n, k)[j])
    decreases n - lo, k
  {
    if k > 0 && lo + k <= n {
      var a := Combos(lo + 1, n, k - 1);
      var b := Combos(lo + 1, n, k);
      var L := Combos(lo, n, k);
      CombosSorted(lo + 1, n, k - 1);
      CombosSorted(lo + 1, n, k);
      CombosSelections(lo + 1, n, k);
      assert L == Prepend(lo, a) + b;
      forall i, j | 0 <= i < j < |L| ensures LexLess(L[i], L[j]) {
        if j < |a| {
          assert L[i] == [lo] + a[i] && L[j] == [lo] + a[j];
          assert L[i][1..] == a[i] && L[j][1..] == a[j];
        } else if i < |a| {
          assert L[i] == [lo] + a[i];
          assert L[j] == b[j - |a|];
          assert Selection(b[j - |a|], lo + 1, n, k);
        } else {
          assert L[i] == b[i - |a|] && L[j] == b[j - |a|];
        }
      }
    }
  }

  lemma {:induction false} LexLessIrreflexive(a: seq<int>)
    ensures !LexLess(a, a)
    decreases |a|
  {
    if |a| > 0 {
      LexLessIrreflexive(a[1..]);
    }
  }

  /** No index array occurs twice in the enumeration. */
  lemma CombosDistinct(lo: int, n: int, k: nat)
    ensures forall i, j :: 0 <= i < j < |Combos(lo, n, k)| ==> Combos(lo, n, k)[i] != Combos(lo, n, k)[j]
  {
    CombosSorted(lo, n, k);
    forall i, j | 0 <= i < j < |Combos(lo, n, k)| ensures Combos(lo, n, k)[i] != Combos(lo, n, k)[j] {
      LexLessIrreflexive(Combos(lo, n, k)[i]);
    }
  }

  // ---------------------------------------------------------------------------
  // The in-place successor step of getCombinations
  // ---------------------------------------------------------------------------

  /** The successor the stepping loop computes: the rightmost position that is not at its
      maximum (position i of k may reach n - k + i) is incremented and every later position
      is reset to the run after it; None when every position is at its maximum. */
  function Next(c: seq<int>, n: int): Option<seq<int>>
    decreases |c|
  {
    if c == [] then None
    else match Next(c[1..], n)
      case Some(t) => Some([c[0]] + t)
      case None => if c[0] != n - |c| then Some(Run(c[0] + 1, |c|)) else None
  }

  lemma {:induction false} NextAllAtMaximum(c: seq<int>, n: int)
    requires forall j :: 0 <= j < |c| ==> c[j] == j + n - |c|
    ensures Next(c, n) == None
    decreases |c|
  {
    if c != [] {
      NextAllAtMaximum(c[1..], n);
    }
  }

  /** What the in-place loop does at position idx equals `Next`. */
  lemma {:induction false} NextAt(c: seq<int>, n: int, idx: nat)
    requires idx < |c| && c[idx] != idx + n - |c|
    requires forall j :: idx < j < |c| ==> c[j] == j + n - |c|
    ensures Next(c, n) == Some(c[..idx] + Run(c[idx] + 1, |c| - idx))
    decreases idx
  {
    var tail := c[1..];
    assert c == [c[0]] + tail;
    NextCons(c[0], tail, n);
    if idx == 0 {
      assert forall j :: 0 <= j < |tail| ==> tail[j] == c[j + 1];
      NextAllAtMaximum(tail, n);
      assert c[..0] + Run(c[0] + 1, |c|) == Run(c[0] + 1, |c|);
    } else {
      assert tail[idx - 1] == c[idx];
      assert forall j :: idx - 1 < j < |tail| ==> tail[j] == c[j + 1];
      NextAt(tail, n, idx - 1);
      var run := Run(c[idx] + 1, |c| - idx);
      assert c[..idx] + run == [c[0]] + (tail[..idx - 1] + run);
    }
  }

  lemma {:induction false} CombosFirst(lo: int, n: int, k: nat)
    requires lo + k <= n
    ensures |Combos(lo, n, k)| > 0 && Combos(lo, n, k)[0] == Run(lo, k)
    decreases k
  {
    if k > 0 {
      CombosFirst(lo + 1, n, k - 1);
      assert Run(lo, k) == [lo] + Run(lo + 1, k - 1);
    }
  }

  /** `Next` of an array with x in front: the successor of the rest with x kept, or a new
      run from x + 1 when the rest is at its maximum. */
  lemma NextCons(x: int, c: seq<int>, n: int)
    ensures Next([x] + c, n) ==
      match Next(c, n)
      case Some(t) => Some([x] + t)
      case None => if x != n - (|c| + 1) then Some(Run(x + 1, |c| + 1)) else None
  {
    assert ([x] + c)[1..] == c;
  }

  /** Each array of L steps to the one after it. */
  predicate Linked(L: seq<seq<int>>, n: int)
  {
    forall j :: 0 <= j < |L| - 1 ==> Next(L[j], n) == Some(L[j + 1])
  }

  /** Two linked lists whose seam steps across are linked together. */
  lemma LinkedConcat(P: seq<seq<int>>, B: seq<seq<int>>, n: int)
    requires Linked(P, n) && Linked(B, n)
    requires |P| > 0 && |B| > 0 ==> Next(P[|P| - 1], n) == Some(B[0])
    ensures Linked(P + B, n)
  {
    var L := P + B;
    forall j | 0 <= j < |L| - 1 ensures Next(L[j], n) == Some(L[j + 1]) {
      if j < |P| - 1 {
        assert L[j] == P[j] && L[j + 1] == P[j + 1];
      } else if j == |P| - 1 {
        assert L[j] == P[|P| - 1] && L[j + 1] == B[0];
      } else {
        assert L[j] == B[j - |P|] && L[j + 1] == B[j + 1 - |P|];
      }
    }
  }

  /** The seam itself: the last array with lo in front steps to the first array of the
      block after it, or ends the chain when that block is empty. */
  lemma SeamStep(lo: int, n: int, k: nat, x: seq<int>, b: seq<seq<int>>)
    requires k > 0 && lo + k <= n && |x| == k - 1 && Next(x, n) == None
    requires lo + 1 + k <= n ==> |b| > 0 && b[0] == Run(lo + 1, k)
    requires lo + 1 + k > n ==> b == []
    ensures Next([lo] + x, n) == (if |b| > 0 then Some(b[0]) else None)
  {
    NextCons(lo, x, n);
  }

  /** Every array of the enumeration has k entries. */
  lemma CombosLength(lo: int, n: int, k: nat, j: int)
    requires 0 <= j < |Combos(lo, n, k)|
    ensures |Combos(lo, n, k)[j]| == k
  {
    CombosSelections(lo, n, k);
    assert Combos(lo, n, k)[j] in Combos(lo, n, k);
  }

  /** Prepending one value to every array keeps the arrays linked. */
  lemma LinkedPrepend(lo: int, a: seq<seq<int>>, n: int)
    requires Linked(a, n)
    ensures Linked(Prepend(lo, a), n)
  {
    var pa := Prepend(lo, a);
    forall j | 0 <= j < |pa| - 1 ensures Next(pa[j], n) == Some(pa[j + 1]) {
      assert Next(a[j], n) == Some(a[j + 1]);
      NextCons(lo, a[j], n);
    }
  }

  /** The arrays starting with lo, then those after lo, form one chain when each block
      is a chain and the seam steps across. */
  lemma ChainJoin(lo: int, n: int, k: nat, a: seq<seq<int>>, b: seq<seq<int>>)
    requires k > 0 && lo + k <= n
    requires |a| > 0 && Linked(a, n) && Next(a[|a| - 1], n) == None && |a[|a| - 1]| == k - 1
    requires Linked(b, n) && (|b| > 0 ==> Next(b[|b| - 1], n) == None)
    requires lo + 1 + k <= n ==> |b| > 0 && b[0] == Run(lo + 1, k)
    requires lo + 1 + k > n ==> b == []
    ensures Linked(Prepend(lo, a) + b, n)
    ensures Next((Prepend(lo, a) + b)[|Prepend(lo, a) + b| - 1], n) == None
  {
    var pa := Prepend(lo, a);
    var x := a[|a| - 1];
    SeamStep(lo, n, k, x, b);
    assert pa[|pa| - 1] == [lo] + x;
    LinkedPrepend(lo, a, n);
    LinkedConcat(pa, b, n);
    var L := pa + b;
    if |b| > 0 {
      assert L[|L| - 1] == b[|b| - 1];
    } else {
      assert L[|L| - 1] == [lo] + x;
    }
  }

  /** The last array starting with lo has k - 1 entries after lo. */
  lemma CombosLastLength(lo: int, n: int, k: nat)
    requires k > 0 && lo + k <= n
    ensures |Combos(lo + 1, n, k - 1)| > 0
    ensures |Combos(lo + 1, n, k - 1)[|Combos(lo + 1, n, k - 1)| - 1]| == k - 1
  {
    CombosFirst(lo + 1, n, k - 1);
    CombosLength(lo + 1, n, k - 1, |Combos(lo + 1, n, k - 1)| - 1);
  }

  /** The arrays after lo start with the run from lo + 1, or there are none. */
  lemma CombosAfterStart(lo: int, n: int, k: nat)
    requires k > 0 && lo + k <= n
    ensures lo + 1 + k <= n ==> |Combos(lo + 1, n, k)| > 0 && Combos(lo + 1, n, k)[0] == Run(lo + 1, k)
    ensures lo + 1 + k > n ==> Combos(lo + 1, n, k) == []
  {
    if lo + 1 + k <= n {
      CombosFirst(lo + 1, n, k);
    }
  }

  /** The enumeration is the chain of successors: each element's `Next` is the element
      after it, and the last element has none. */
  lemma {:induction false} CombosChain(lo: int, n: int, k: nat)
    ensures Linked(Combos(lo, n, k), n)
    ensures |Combos(lo, n, k)| > 0 ==> Next(Combos(lo, n, k)[|Combos(lo, n, k)| - 1], n) == None
    decreases n - lo, k
  {
    if k > 0 && lo + k <= n {
      CombosLastLength(lo, n, k);
      CombosAfterStart(lo, n, k);
      CombosChain(lo + 1, n, k - 1);
      CombosChain(lo + 1, n, k);
      ChainJoin(lo, n, k, Combos(lo + 1, n, k - 1), Combos(lo + 1, n, k));
    }
  }

  /** Only the last index array of the enumeration has no successor. */
  lemma CombosChainEnd(lo: int, n: int, k: nat)
    ensures forall t :: 0 <= t < |Combos(lo, n, k)| ==>
      (Next(Combos(lo, n, k)[t], n) == None <==> t == |Combos(lo, n, k)| - 1)
  {
    var L := Combos(lo, n, k);
    CombosChain(lo, n, k);
    forall t | 0 <= t < |L| ensures Next(L[t], n) == None <==> t == |L| - 1 {
      if t < |L| - 1 {
        assert Next(L[t], n) == Some(L[t + 1]);
      }
    }
  }

  // ---------------------------------------------------------------------------
  // getCombinations
  // ---------------------------------------------------------------------------

  /** Every index of c is a position of an array of length n. */
  predicate IndicesBelow(c: seq<int>, n: int)
  {
    forall j :: 0 <= j < |c| ==> 0 <= c[j] < n
  }

  /** `indices.map(i => arr[i])`. */
  function Pick(arr: seq<int>, c: seq<int>): (r: seq<int>)
    requires IndicesBelow(c, |arr|)
    ensures |r| == |c| && forall j :: 0 <= j < |c| ==> r[j] == arr[c[j]]
  {
    seq(|c|, j requires 0 <= j < |c| => arr[c[j]])
  }

  function PickAll(arr: seq<int>, cs: seq<seq<int>>): (r: seq<seq<int>>)
    requires forall c :: c in cs ==> IndicesBelow(c, |arr|)
    ensures |r| == |cs| && forall i :: 0 <= i < |cs| ==> r[i] == Pick(arr, cs[i])
  {
    seq(|cs|, i requires 0 <= i < |cs| => Pick(arr, cs[i]))
  }

  /** The k-subsets of `arr` as order-preserving subsequences, in lexicographic order of
      their positions. */
  function Subsets(arr: seq<int>, k: nat): seq<seq<int>>
  {
    CombosIndexable(|arr|, k);
    PickAll(arr, Combos(0, |arr|, k))
  }

  lemma CombosIndexable(n: int, k: nat)
    ensures forall c :: c in Combos(0, n, k) ==> IndicesBelow(c, n)
  {
    CombosSelections(0, n, k);
  }

  /** One step of the generator: find the rightmost index below its maximum, increment it
      and reset the indices after it; report whether there was one. */
  method Advance(indices: array<int>, n: int) returns (more: bool)
    modifies indices
    ensures Next(old(indices[..]), n) == if more then Some(indices[..]) else None
  {
    var k := indices.Length;
    var idx := k - 1;
    while idx >= 0 && indices[idx] == idx + n - k
      invariant -1 <= idx < k
      invariant forall j :: idx < j < k ==> indices[j] == j + n - k
    {
      idx := idx - 1;
    }
    if idx < 0 {
      NextAllAtMaximum(indices[..], n);
      return false;
    }
    ghost var before := indices[..];
    NextAt(before, n, idx);
    indices[idx] := indices[idx] + 1;
    var j := idx + 1;
    while j < k
      invariant idx + 1 <= j <= k
      invariant forall m :: 0 <= m < idx ==> indices[m] == before[m]
      invariant forall m :: idx <= m < j ==> indices[m] == before[idx] + 1 + (m - idx)
      invariant forall m :: j <= m < k ==> indices[m] == before[m]
    {
      indices[j] := indices[j - 1] + 1;
      j := j + 1;
    }
    assert indices[..] == before[..idx] + Run(before[idx] + 1, k - idx);
    return true;
  }

  lemma PickAllSnoc(arr: seq<int>, cs: seq<seq<int>>, t: nat)
    requires t < |cs|
    requires forall c :: c in cs ==> IndicesBelow(c, |arr|)
    ensures PickAll(arr, cs[..t + 1]) == PickAll(arr, cs[..t]) + [Pick(arr, cs[t])]
  {
    assert forall c :: c in cs[..t + 1] ==> c in cs;
  }

  /** The shared stepping loop of every `getCombinations` copy, for 0 <= k <= |arr|:
      start from [0, ..., k - 1], yield, and advance the index array in place. */
  method StepSubsets(arr: seq<int>, k: nat) returns (out: seq<seq<int>>)
    requires k <= |arr|
    ensures out == Subsets(arr, k)
  {
    var n := |arr|;
    var indices := new int[k](j => j);
    ghost var L := Combos(0, n, k);
    ghost var t := 0;
    CombosFirst(0, n, k);
    CombosIndexable(n, k);
    CombosChain(0, n, k);
    CombosChainEnd(0, n, k);
    assert indices[..] == L[0];
    out := [];
    while true
      invariant 0 <= t < |L|
      invariant indices[..] == L[t]
      invariant out == PickAll(arr, L[..t])
      decreases |L| - t
    {
      PickAllSnoc(arr, L, t);
      out := out + [Pick(arr, indices[..])];
      ghost var cur := indices[..];
      var more := Advance(indices, n);
      if !more {
        assert Next(L[t], n) == None;
        assert t == |L| - 1;
        assert L[..t + 1] == L;
        break;
      }
      t := t + 1;
    }
  }

  /** `getCombinations` of the LevelDesign worker and of the second-generation worker:
      nothing for k > |arr|, and a single empty combination for k == 0 and also for a
      negative k, where the index array starts empty and the stepping loop stops after
      the first yield. */
  function CombinationsOf(arr: seq<int>, k: int): seq<seq<int>>
  {
    if k < 0 then [[]] else Subsets(arr, k)
  }

  method GetCombinations(arr: seq<int>, k: int) returns (out: seq<seq<int>>)
    ensures out == CombinationsOf(arr, k)
  {
    if k == 0 {
      return [[]];
    }
    if k > |arr| {
      CombosCount(0, |arr|, k);
      ChooseBeyond(|arr|, k);
      return [];
    }
    if k < 0 {
      return [[]];
    }
    out := StepSubsets(arr, k);
  }

  /** The number of yielded combinations is C(|arr|, k) for every k >= 0. */
  lemma SubsetsCount(arr: seq<int>, k: nat)
    ensures |Subsets(arr, k)| == NCr(|arr|, k)
  {
    CombosCount(0, |arr|, k);
    if k > |arr| {
      ChooseBeyond(|arr|, k);
    }
  }

  /** Each yielded combination is an order-preserving subsequence of k elements of arr. */
  lemma SubsetsAreSubsequences(arr: seq<int>, k: nat, s: seq<int>)
    requires s in Subsets(arr, k)
    ensures exists c :: Selection(c, 0, |arr|, k) && s == Pick(arr, c)
  {
    CombosSelections(0, |arr|, k);
    var i :| 0 <= i < |Subsets(arr, k)| && Subsets(arr, k)[i] == s;
    assert Selection(Combos(0, |arr|, k)[i], 0, |arr|, k);
  }

  /** Each yielded combination takes its elements from arr. */
  lemma SubsetMembers(arr: seq<int>, k: nat, s: seq<int>)
    requires s in Subsets(arr, k)
    ensures forall x :: x in s ==> x in arr
  {
    SubsetsAreSubsequences(arr, k, s);
    var c :| Selection(c, 0, |arr|, k) && s == Pick(arr, c);
    forall x | x in s
      ensures x in arr
    {
      var j :| 0 <= j < |s| && s[j] == x;
      assert arr[c[j]] == x;
    }
  }

  /** Each order-preserving k-subsequence of arr is yielded. */
  lemma SubsetsComplete(arr: seq<int>, k: nat, c: seq<int>)
    requires Selection(c, 0, |arr|, k)
    ensures Pick(arr, c) in Subsets(arr, k)
  {
    CombosComplete(0, |arr|, k, c);
    CombosSelections(0, |arr|, k);
    var i :| 0 <= i < |Combos(0, |arr|, k)| && Combos(0, |arr|, k)[i] == c;
    assert Subsets(arr, k)[i] == Pick(arr, c);
  }

  /** Over an array without repeated elements no subset is yielded twice. */
  lemma SubsetsDistinct(arr: seq<int>, k: nat)
    requires Distinct(arr)
    ensures forall i, j :: 0 <= i < j < |Subsets(arr, k)| ==> Subsets(arr, k)[i] != Subsets(arr, k)[j]
  {
    var L := Combos(0, |arr|, k);
    CombosDistinct(0, |arr|, k);
    CombosSelections(0, |arr|, k);
    forall i, j | 0 <= i < j < |Subsets(arr, k)| ensures Subsets(arr, k)[i] != Subsets(arr, k)[j] {
      assert L[i] in L && L[j] in L;
      assert L[i] != L[j];
      var m :| 0 <= m < k && L[i][m] != L[j][m];
      assert Subsets(arr, k)[i][m] == arr[L[i][m]];
      assert Subsets(arr, k)[j][m] == arr[L[j][m]];
    }
  }
}
