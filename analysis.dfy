/** The post-solve analysis of both in-page generations (`analysis-viewer.js`): the
    difficulty figure, the sort of the solution list, the per-target, per-star and
    per-condition tallies, the filters, the warnings, the export's initial cells and the
    per-cell bomb tally behind the heat map. The two generations share this logic. */
module Analysis {
  import opened Common
  import opened Conditions
  import opened Stars
  import opened Editor
  import SolutionView

  // ---------------------------------------------------------------------------
  // Difficulty
  // ---------------------------------------------------------------------------

  /** BigInt `/`: the quotient truncated toward zero. */
  function Quot(a: int, b: int): (q: int)
    requires b > 0
    ensures a >= 0 ==> q == a / b
    ensures a < 0 ==> q == -((-a) / b)
  {
    if a >= 0 then a / b else -((-a) / b)
  }

  /** `calculateDifficulty(solutions, totalCombinations)` for n solutions. */
  function Difficulty(n: nat, total: int): (d: int)
    ensures total <= 0 ==> d == 0
    ensures total > 0 && n == 0 ==> d == 100
  {
    if n == 0 || total <= 0 then (if total > 0 then 100 else 0)
    else Quot((total - n) * 100, total)
  }

  /** With between 1 and total solutions, the difficulty is the percentage of the
      combinations that are not solutions, rounded down, so it lies in [0, 100). */
  lemma DifficultyBounds(n: nat, total: int)
    requires 1 <= n <= total
    ensures var d := Difficulty(n, total);
      0 <= d < 100 && d * total <= (total - n) * 100 < (d + 1) * total
  {
    var a := (total - n) * 100;
    var d := a / total;
    assert a >= 0;
    assert d * total <= a < (d + 1) * total by {
      assert a == d * total + a % total;
    }
    assert a < 100 * total;
    FactorBelow(d, 100, total);
  }

  /** More solutions out of the same total never make the puzzle harder. */
  lemma DifficultyFalls(n: nat, m: nat, total: int)
    requires 1 <= n <= m <= total
    ensures Difficulty(m, total) <= Difficulty(n, total)
  {
    DifficultyBounds(n, total);
    DifficultyBounds(m, total);
    var dn := Difficulty(n, total);
    var dm := Difficulty(m, total);
    assert dm * total < (dn + 1) * total;
    FactorBelow(dm, dn + 1, total);
  }

  // ---------------------------------------------------------------------------
  // Order and filters
  // ---------------------------------------------------------------------------

  /** The comparator `(b.starsCount - a.starsCount) || (a.sum - b.sum)` does not put b
      before a. */
  predicate InOrder(a: Record, b: Record)
  {
    a.starsCount > b.starsCount || (a.starsCount == b.starsCount && a.sum <= b.sum)
  }

  predicate Ordered(s: seq<Record>)
  {
    forall i, j :: 0 <= i < j < |s| ==> InOrder(s[i], s[j])
  }

  function Insert(x: Record, s: seq<Record>): (r: seq<Record>)
    requires Ordered(s)
    ensures Ordered(r) && multiset(r) == multiset(s) + multiset{x}
  {
    if s == [] then [x]
    else if InOrder(x, s[0]) then
      InsertFront(x, s);
      [x] + s
    else
      var t := Insert(x, s[1..]);
      InsertBehind(x, s, t);
      [s[0]] + t
  }

  lemma InsertFront(x: Record, s: seq<Record>)
    requires Ordered(s) && s != [] && InOrder(x, s[0])
    ensures Ordered([x] + s)
  {
    assert forall j :: 0 < j < |s| ==> InOrder(s[0], s[j]);
  }

  /** Keeping the head and inserting behind it keeps the order and the contents. */
  lemma InsertBehind(x: Record, s: seq<Record>, t: seq<Record>)
    requires Ordered(s) && s != [] && !InOrder(x, s[0])
    requires Ordered(t) && multiset(t) == multiset(s[1..]) + multiset{x}
    ensures Ordered([s[0]] + t) && multiset([s[0]] + t) == multiset(s) + multiset{x}
  {
    assert s == [s[0]] + s[1..];
    forall j | 0 <= j < |t| ensures InOrder(s[0], t[j]) {
      assert t[j] in multiset(t);
      if t[j] != x {
        assert t[j] in s[1..];
      }
    }
  }

  /** `solutions.sort((a, b) => (b.starsCount - a.starsCount) || (a.sum - b.sum))`:
      the same records, most stars first, then the smaller sum. */
  function SortSolutions(s: seq<Record>): (r: seq<Record>)
    ensures Ordered(r) && multiset(r) == multiset(s) && |r| == |s|
  {
    if s == [] then []
    else
      var t := SortSolutions(s[1..]);
      assert s == [s[0]] + s[1..];
      Insert(s[0], t)
  }

  /** `list.filter(keep)`. */
  function Filter(s: seq<Record>, keep: Record -> bool): (r: seq<Record>)
    ensures |r| <= |s|
    ensures forall x :: x in r <==> x in s && keep(x)
    ensures forall x :: multiset(r)[x] == (if keep(x) then multiset(s)[x] else 0)
  {
    if s == [] then []
    else
      var p := Filter(s[..|s| - 1], keep);
      var x := s[|s| - 1];
      assert s == s[..|s| - 1] + [x];
      if keep(x) then p + [x] else p
  }

  /** r is s with some entries dropped, the rest in their order. */
  predicate Sublist(r: seq<Record>, s: seq<Record>)
    decreases |s|
  {
    if r == [] then true
    else if s == [] then false
    else if r[|r| - 1] == s[|s| - 1] then Sublist(r[..|r| - 1], s[..|s| - 1])
    else Sublist(r, s[..|s| - 1])
  }

  /** A filter keeps the order of the entries it keeps. */
  lemma {:induction false} FilterSublist(s: seq<Record>, keep: Record -> bool)
    ensures Sublist(Filter(s, keep), s)
    decreases |s|
  {
    if s != [] {
      FilterSublist(s[..|s| - 1], keep);
      var p := Filter(s[..|s| - 1], keep);
      if keep(s[|s| - 1]) {
        assert (p + [s[|s| - 1]])[..|p|] == p;
      } else if p != [] {
        SublistOfShorter(p, s[..|s| - 1], s[|s| - 1]);
      }
    }
  }

  /** A sublist stays one when an entry is appended to the longer list. */
  lemma {:induction false} SublistOfShorter(r: seq<Record>, s: seq<Record>, x: Record)
    requires Sublist(r, s) && r != []
    ensures Sublist(r, s + [x])
    decreases |s|, 1
  {
    assert (s + [x])[..|s|] == s;
    if r[|r| - 1] == x && r[..|r| - 1] != [] {
      SublistDropLast(r, s);
    }
  }

  /** Dropping the last entry of a sublist leaves a sublist. */
  lemma {:induction false} SublistDropLast(r: seq<Record>, s: seq<Record>)
    requires Sublist(r, s) && r != []
    ensures Sublist(r[..|r| - 1], s)
    decreases |s|, 0
  {
    assert s != [];
    var init := s[..|s| - 1];
    if r[|r| - 1] == s[|s| - 1] {
      if r[..|r| - 1] != [] {
        SublistOfShorter(r[..|r| - 1], init, s[|s| - 1]);
        assert init + [s[|s| - 1]] == s;
      }
    } else {
      SublistDropLast(r, init);
      if r[..|r| - 1] != [] {
        SublistOfShorter(r[..|r| - 1], init, s[|s| - 1]);
        assert init + [s[|s| - 1]] == s;
      }
    }
  }

  /** `s.conditionStatus || [false, false, false]` destructured into three flags: an
      entry past the end reads as not met. */
  function Flags(cs: seq<bool>): (f: seq<bool>)
    ensures |f| == 3
    ensures forall i :: 0 <= i < 3 ==> (f[i] <==> i < |cs| && cs[i])
  {
    [|cs| > 0 && cs[0], |cs| > 1 && cs[1], |cs| > 2 && cs[2]]
  }

  /** The test of `filterByConditionStatus`: every checked condition is met. */
  function MeetsChecked(f1: bool, f2: bool, f3: bool): Record -> bool
  {
    (s: Record) => var f := Flags(s.conditionStatus); (!f1 || f[0]) && (!f2 || f[1]) && (!f3 || f[2])
  }

  /** `filterByConditionStatus`: nothing is rendered for an empty list; otherwise the
      list of the solutions meeting every checked condition. */
  function FilterByConditionStatus(sols: seq<Record>, f1: bool, f2: bool, f3: bool): (r: Option<seq<Record>>)
    ensures sols == [] <==> r.None?
    ensures r.Some? ==> Sublist(r.value, sols)
    ensures r.Some? ==> forall s :: s in r.value <==>
      (s in sols && (f1 ==> Flags(s.conditionStatus)[0]) && (f2 ==> Flags(s.conditionStatus)[1]) &&
       (f3 ==> Flags(s.conditionStatus)[2]))
  {
    if sols == [] then None
    else
      FilterSublist(sols, MeetsChecked(f1, f2, f3));
      Some(Filter(sols, MeetsChecked(f1, f2, f3)))
  }

  function HasSum(t: int): Record -> bool
  {
    (s: Record) => s.sum == t
  }

  function HasStars(k: int): Record -> bool
  {
    (s: Record) => s.starsCount == k
  }

  /** `filterBySum(t)`: exactly the solutions whose sum is t, in order. */
  function FilterBySum(sols: seq<Record>, t: int): (r: seq<Record>)
    ensures Sublist(r, sols)
    ensures forall s :: s in r <==> s in sols && s.sum == t
  {
    FilterSublist(sols, HasSum(t));
    Filter(sols, HasSum(t))
  }

  /** `filterByStars(k)`: exactly the solutions with k stars, in order. */
  function FilterByStars(sols: seq<Record>, k: int): (r: seq<Record>)
    ensures Sublist(r, sols)
    ensures forall s :: s in r <==> s in sols && s.starsCount == k
  {
    FilterSublist(sols, HasStars(k));
    Filter(sols, HasStars(k))
  }

  // ---------------------------------------------------------------------------
  // The post-solve tally
  // ---------------------------------------------------------------------------

  function Lookup(m: map<int, nat>, k: int): nat
  {
    if k in m then m[k] else 0
  }

  /** `counts[k] = (counts[k] || 0) + 1`. */
  function Bump(m: map<int, nat>, k: int): (r: map<int, nat>)
    ensures r.Keys == m.Keys + {k}
    ensures forall j :: Lookup(r, j) == Lookup(m, j) + (if j == k then 1 else 0)
  {
    m[k := Lookup(m, k) + 1]
  }

  /** What the loop over the solutions gathers: `countsByTarget`, `countsByStars`,
      `maxStar` and the eight intersection buckets. */
  datatype Tally = Tally(byTarget: map<int, nat>, byStars: map<int, nat>, maxStar: int, buckets: BucketCounts)

  const NoTally := Tally(map[], map[], 0, NoBuckets)

  function Count(t: Tally, s: Record): Tally
  {
    Tally(Bump(t.byTarget, s.sum), Bump(t.byStars, s.starsCount),
      if s.starsCount > t.maxStar then s.starsCount else t.maxStar,
      t.buckets.Bump(Classify(Flags(s.conditionStatus))))
  }

  function TallyOf(sols: seq<Record>): Tally
  {
    if sols == [] then NoTally else Count(TallyOf(sols[..|sols| - 1]), sols[|sols| - 1])
  }

  method PostSolveTally(sols: seq<Record>) returns (t: Tally)
    ensures t == TallyOf(sols)
  {
    t := NoTally;
    for i := 0 to |sols|
      invariant t == TallyOf(sols[..i])
    {
      TallyOfSnoc(sols, i);
      var s := sols[i];
      var byTarget := Bump(t.byTarget, s.sum);
      var byStars := Bump(t.byStars, s.starsCount);
      var maxStar := t.maxStar;
      if s.starsCount > maxStar {
        maxStar := s.starsCount;
      }
      var b := BucketOf(Flags(s.conditionStatus));
      t := Tally(byTarget, byStars, maxStar, t.buckets.Bump(b));
    }
    assert sols[..|sols|] == sols;
  }

  lemma TallyOfSnoc(sols: seq<Record>, i: nat)
    requires i < |sols|
    ensures TallyOf(sols[..i + 1]) == Count(TallyOf(sols[..i]), sols[i])
  {
    assert sols[..i + 1][..i] == sols[..i];
  }

  /** The first-match chain of the tally loop over the three flags. */
  method BucketOf(f: seq<bool>) returns (b: Bucket)
    requires |f| == 3
    ensures b == Classify(f)
  {
    if !f[0] && !f[1] && !f[2] {
      b := NoneMet;
    } else if f[0] && f[1] && f[2] {
      b := C1C2C3;
    } else if f[0] && f[1] {
      b := C1C2;
    } else if f[0] && f[2] {
      b := C1C3;
    } else if f[1] && f[2] {
      b := C2C3;
    } else if f[0] {
      b := C1Only;
    } else if f[1] {
      b := C2Only;
    } else {
      b := C3Only;
    }
  }

  function InBucket(b: Bucket): Record -> bool
  {
    (s: Record) => Classify(Flags(s.conditionStatus)) == b
  }

  /** Each target count is the number of solutions with that sum. */
  lemma {:induction false} TallyTargets(sols: seq<Record>)
    ensures forall k :: Lookup(TallyOf(sols).byTarget, k) == |FilterBySum(sols, k)|
    decreases |sols|
  {
    if sols != [] {
      var init := sols[..|sols| - 1];
      var s := sols[|sols| - 1];
      TallyTargets(init);
      forall k
        ensures Lookup(TallyOf(sols).byTarget, k) == |FilterBySum(sols, k)|
      {
        assert Filter(sols, HasSum(k)) == Filter(init, HasSum(k)) + (if s.sum == k then [s] else []);
      }
    }
  }

  /** Each star count is the number of solutions with that many stars. */
  lemma {:induction false} TallyStars(sols: seq<Record>)
    ensures forall k :: Lookup(TallyOf(sols).byStars, k) == |FilterByStars(sols, k)|
    decreases |sols|
  {
    if sols != [] {
      var init := sols[..|sols| - 1];
      var s := sols[|sols| - 1];
      TallyStars(init);
      forall k
        ensures Lookup(TallyOf(sols).byStars, k) == |FilterByStars(sols, k)|
      {
        assert Filter(sols, HasStars(k)) == Filter(init, HasStars(k)) + (if s.starsCount == k then [s] else []);
      }
    }
  }

  /** A key enters a count map only with a count of at least one. */
  lemma {:induction false} TallyKeysCounted(sols: seq<Record>)
    ensures forall k :: k in TallyOf(sols).byTarget ==> TallyOf(sols).byTarget[k] >= 1
    ensures forall k :: k in TallyOf(sols).byStars ==> TallyOf(sols).byStars[k] >= 1
    decreases |sols|
  {
    if sols != [] {
      TallyKeysCounted(sols[..|sols| - 1]);
    }
  }

  /** `countsByTarget` has a key exactly for each sum some solution reaches. */
  lemma TargetKeys(sols: seq<Record>)
    ensures forall k :: k in TallyOf(sols).byTarget <==> exists s :: s in sols && s.sum == k
  {
    TallyTargets(sols);
    TallyKeysCounted(sols);
    forall k
      ensures k in TallyOf(sols).byTarget <==> exists s :: s in sols && s.sum == k
    {
      var f := FilterBySum(sols, k);
      if f != [] {
        assert f[0] in f;
      }
    }
  }

  /** Each bucket counts the solutions whose met conditions are exactly the bucket's,
      and the eight buckets add up to the number of solutions. */
  lemma {:induction false} TallyBuckets(sols: seq<Record>)
    ensures forall b :: TallyOf(sols).buckets.Get(b) == |Filter(sols, InBucket(b))|
    ensures TallyOf(sols).buckets.Total() == |sols|
    decreases |sols|
  {
    if sols != [] {
      var init := sols[..|sols| - 1];
      var s := sols[|sols| - 1];
      TallyBuckets(init);
      forall b
        ensures TallyOf(sols).buckets.Get(b) == |Filter(sols, InBucket(b))|
      {
        assert Filter(sols, InBucket(b)) ==
          Filter(init, InBucket(b)) + (if Classify(Flags(s.conditionStatus)) == b then [s] else []);
      }
    }
  }

  /** `maxStar` is the largest star count, 0 for no solutions. */
  lemma TallyMaxStar(sols: seq<Record>)
    ensures var m := TallyOf(sols).maxStar;
      m >= 0 && (forall s :: s in sols ==> s.starsCount <= m) &&
      (m == 0 || exists s :: s in sols && s.starsCount == m)
  {
    TallyMaxIsMaxStar(sols);
    MaxStarBounds(sols);
  }

  /** The running maximum of the loop, `0` to start with. */
  function MaxStar(sols: seq<Record>): int
  {
    if sols == [] then 0
    else
      var m := MaxStar(sols[..|sols| - 1]);
      if sols[|sols| - 1].starsCount > m then sols[|sols| - 1].starsCount else m
  }

  lemma {:induction false} TallyMaxIsMaxStar(sols: seq<Record>)
    ensures TallyOf(sols).maxStar == MaxStar(sols)
    decreases |sols|
  {
    if sols != [] {
      TallyMaxIsMaxStar(sols[..|sols| - 1]);
    }
  }

  lemma {:induction false} MaxStarBounds(sols: seq<Record>)
    ensures var m := MaxStar(sols);
      m >= 0 && (forall s :: s in sols ==> s.starsCount <= m) &&
      (m == 0 || exists s :: s in sols && s.starsCount == m)
    decreases |sols|
  {
    if sols != [] {
      var init := sols[..|sols| - 1];
      var last := sols[|sols| - 1];
      MaxStarBounds(init);
      forall x | x in sols ensures x in init || x == last {
        var i :| 0 <= i < |sols| && sols[i] == x;
        if i < |init| {
          assert init[i] == x;
        }
      }
      assert last in sols;
      forall x | x in init ensures x in sols {
        var i :| 0 <= i < |init| && init[i] == x;
        assert sols[i] == x;
      }
    }
  }

  /** The total of a count map over a list of its keys. */
  function TotalOver(m: map<int, nat>, keys: seq<int>): int
  {
    if keys == [] then 0 else TotalOver(m, keys[..|keys| - 1]) + Lookup(m, keys[|keys| - 1])
  }

  lemma {:induction false} TotalOverBump(m: map<int, nat>, keys: seq<int>, k: int)
    requires Distinct(keys)
    ensures TotalOver(Bump(m, k), keys) == TotalOver(m, keys) + (if k in keys then 1 else 0)
    decreases |keys|
  {
    if keys != [] {
      var init := keys[..|keys| - 1];
      assert Distinct(init);
      TotalOverBump(m, init, k);
      assert forall y :: y in keys <==> y in init || y == keys[|keys| - 1];
      if k == keys[|keys| - 1] {
        assert k !in init by {
          forall j | 0 <= j < |init| ensures init[j] != k {
            assert init[j] == keys[j];
          }
        }
      }
    }
  }

  /** The solutions' sums in order. */
  function Sums(sols: seq<Record>): (r: seq<int>)
    ensures |r| == |sols| && forall i :: 0 <= i < |sols| ==> r[i] == sols[i].sum
  {
    if sols == [] then [] else Sums(sols[..|sols| - 1]) + [sols[|sols| - 1].sum]
  }

  /** The target counts add up to the number of solutions: summed over the distinct
      sums, which are exactly the keys of `countsByTarget`. */
  lemma {:induction false} TargetCountsTotal(sols: seq<Record>)
    ensures var keys := SolutionView.Dedup(Sums(sols));
      var m := TallyOf(sols).byTarget;
      (forall k :: k in keys <==> k in m) && TotalOver(m, keys) == |sols|
    decreases |sols|
  {
    if sols != [] {
      var init := sols[..|sols| - 1];
      var s := sols[|sols| - 1];
      TargetCountsTotal(init);
      TallyTargets(init);
      var keys := SolutionView.Dedup(Sums(init));
      assert Sums(sols)[..|sols| - 1] == Sums(init);
      TotalOverBump(TallyOf(init).byTarget, keys, s.sum);
      if s.sum !in keys {
        assert Lookup(TallyOf(init).byTarget, s.sum) == 0;
      }
    }
  }

  /** `filterTopStars` (first generation): nothing for an empty list, otherwise the
      solutions with `Math.max` of the star counts. */
  function MaxStars(sols: seq<Record>): (m: int)
    requires sols != []
    ensures forall s :: s in sols ==> s.starsCount <= m
    ensures exists s :: s in sols && s.starsCount == m
  {
    if |sols| == 1 then sols[0].starsCount
    else
      var m := MaxStars(sols[1..]);
      assert sols == [sols[0]] + sols[1..];
      if sols[0].starsCount > m then sols[0].starsCount else m
  }

  function FilterTopStars(sols: seq<Record>): (r: Option<seq<Record>>)
    ensures r.None? <==> sols == []
    ensures r.Some? ==> r.value != [] && Sublist(r.value, sols)
    ensures r.Some? ==> forall s :: s in r.value <==> s in sols && forall t :: t in sols ==> t.starsCount <= s.starsCount
  {
    if sols == [] then None
    else
      var m := MaxStars(sols);
      var top := FilterByStars(sols, m);
      assert top != [] by {
        var s1 :| s1 in sols && s1.starsCount == m;
        assert s1 in top;
      }
      Some(top)
  }

  /** The top-star filter shows the solutions with the `maxStar` of the tally, and
      there is at least one. */
  lemma TopStarsIsMaxStar(sols: seq<Record>)
    requires sols != []
    ensures FilterTopStars(sols) == Some(FilterByStars(sols, TallyOf(sols).maxStar))
    ensures FilterTopStars(sols).value != []
  {
    TallyMaxStar(sols);
    var m := MaxStars(sols);
    var t := TallyOf(sols).maxStar;
    var s1 :| s1 in sols && s1.starsCount == m;
    assert m >= 0;
    if t != 0 {
      var s2 :| s2 in sols && s2.starsCount == t;
    }
    assert s1 in FilterByStars(sols, m);
  }

  // ---------------------------------------------------------------------------
  // Warnings
  // ---------------------------------------------------------------------------

  /** The easy-puzzle warning, `total > 0 && solutions * 100 / total >= 90`, fires
      exactly when at least 90% of the combinations are solutions. */
  predicate EasyWarning(n: nat, total: int)
    ensures EasyWarning(n, total) <==> total > 0 && n * 100 >= 90 * total
  {
    if total > 0 then (QuotientAtLeast(n * 100, total, 90); (n * 100) / total >= 90) else false
  }

  /** A floor quotient reaches k exactly when the dividend reaches k times the divisor. */
  lemma QuotientAtLeast(x: nat, t: int, k: nat)
    requires t > 0
    ensures x / t >= k <==> x >= k * t
  {
    var q := x / t;
    assert q * t <= x < (q + 1) * t by {
      assert x == q * t + x % t;
    }
    if q >= k {
      FactorAtLeast(q, k, t);
    } else {
      FactorAtLeast(k, q + 1, t);
    }
  }

  /** The constraint warning: the bomb counts are read with plain `parseInt`, so an
      unreadable one makes the total NaN and the warning stays off; otherwise it fires
      when stars and must-bombs are at least half the bombs. */
  predicate ConstraintWarning(b1: Option<int>, b2: Option<int>, bn: Option<int>, stars: nat, mustBombs: nat)
    ensures b1.None? || b2.None? || bn.None? ==> !ConstraintWarning(b1, b2, bn, stars, mustBombs)
    ensures ConstraintWarning(b1, b2, bn, stars, mustBombs) ==> stars + mustBombs > 0
  {
    b1.Some? && b2.Some? && bn.Some? &&
    var totalBombs := b1.value + b2.value + bn.value;
    totalBombs > 0 && 2 * (stars + mustBombs) >= totalBombs
  }

  /** Adding bombs can only switch the constraint warning off. */
  lemma ConstraintWarningMonotone(b1: int, b2: int, bn: int, extra: nat, stars: nat, mustBombs: nat)
    requires b1 + b2 + bn > 0
    ensures ConstraintWarning(Some(b1 + extra), Some(b2), Some(bn), stars, mustBombs) ==>
      ConstraintWarning(Some(b1), Some(b2), Some(bn), stars, mustBombs)
  {
  }

  // ---------------------------------------------------------------------------
  // Export: the initial cells
  // ---------------------------------------------------------------------------

  datatype CellState = BlockCell | StarCell | SwitchCell | BombCell

  function Tagged(ids: seq<int>, st: CellState): (r: seq<(int, CellState)>)
    ensures |r| == |ids| && forall i :: 0 <= i < |ids| ==> r[i] == (ids[i], st)
  {
    if ids == [] then [] else Tagged(ids[..|ids| - 1], st) + [(ids[|ids| - 1], st)]
  }

  /** `getInitialCells`: the blocks, then the stars, the switches and the must-bombs,
      each id tagged with its role. */
  function InitialCells(r: Roles): (c: seq<(int, CellState)>)
    ensures |c| == |r.blocks| + |r.stars| + |r.switches| + |r.mustBombs|
    ensures forall k :: 0 <= k < |c| ==> c[k].0 == (r.blocks + r.stars + r.switches + r.mustBombs)[k]
    ensures forall k :: 0 <= k < |c| ==>
      c[k].1 == (if k < |r.blocks| then BlockCell
                 else if k < |r.blocks| + |r.stars| then StarCell
                 else if k < |r.blocks| + |r.stars| + |r.switches| then SwitchCell
                 else BombCell)
  {
    Tagged(r.blocks, BlockCell) + Tagged(r.stars, StarCell) + Tagged(r.switches, SwitchCell) +
      Tagged(r.mustBombs, BombCell)
  }

  /** The ids of the entries with a given state, in order. */
  function IdsWith(cells: seq<(int, CellState)>, st: CellState): seq<int>
  {
    if cells == [] then []
    else IdsWith(cells[..|cells| - 1], st) + (if cells[|cells| - 1].1 == st then [cells[|cells| - 1].0] else [])
  }

  lemma {:induction false} IdsWithAppend(a: seq<(int, CellState)>, b: seq<(int, CellState)>, st: CellState)
    ensures IdsWith(a + b, st) == IdsWith(a, st) + IdsWith(b, st)
    decreases |b|
  {
    if b == [] {
      assert a + b == a;
    } else {
      IdsWithAppend(a, b[..|b| - 1], st);
      assert (a + b)[..|a + b| - 1] == a + b[..|b| - 1];
      assert (a + b)[|a + b| - 1] == b[|b| - 1];
    }
  }

  lemma {:induction false} IdsWithTagged(ids: seq<int>, tag: CellState, st: CellState)
    ensures IdsWith(Tagged(ids, tag), st) == if tag == st then ids else []
    decreases |ids|
  {
    if ids != [] {
      IdsWithTagged(ids[..|ids| - 1], tag, st);
      assert Tagged(ids, tag)[..|ids| - 1] == Tagged(ids[..|ids| - 1], tag);
      assert ids[..|ids| - 1] + [ids[|ids| - 1]] == ids;
    }
  }

  /** The ids with one state, read from the four tagged runs. */
  lemma IdsWithInitial(r: Roles, st: CellState)
    ensures IdsWith(InitialCells(r), st) ==
      (if st == BlockCell then r.blocks else []) + (if st == StarCell then r.stars else []) +
      (if st == SwitchCell then r.switches else []) + (if st == BombCell then r.mustBombs else [])
  {
    var a := Tagged(r.blocks, BlockCell);
    var b := Tagged(r.stars, StarCell);
    var c := Tagged(r.switches, SwitchCell);
    var d := Tagged(r.mustBombs, BombCell);
    var ia, ib, ic, id := IdsWith(a, st), IdsWith(b, st), IdsWith(c, st), IdsWith(d, st);
    assert IdsWith(a + b, st) == ia + ib by { IdsWithAppend(a, b, st); }
    assert IdsWith(a + b + c, st) == ia + ib + ic by { IdsWithAppend(a + b, c, st); }
    assert IdsWith(InitialCells(r), st) == ia + ib + ic + id by { IdsWithAppend(a + b + c, d, st); }
    IdsWithTagged(r.blocks, BlockCell, st);
    IdsWithTagged(r.stars, StarCell, st);
    IdsWithTagged(r.switches, SwitchCell, st);
    IdsWithTagged(r.mustBombs, BombCell, st);
  }

  /** Reading the entries back by state gives each role set, in its order: the export
      records every role of every cell once. */
  lemma InitialCellsRecover(r: Roles)
    ensures IdsWith(InitialCells(r), BlockCell) == r.blocks
    ensures IdsWith(InitialCells(r), StarCell) == r.stars
    ensures IdsWith(InitialCells(r), SwitchCell) == r.switches
    ensures IdsWith(InitialCells(r), BombCell) == r.mustBombs
    ensures |InitialCells(r)| == |r.blocks| + |r.stars| + |r.switches| + |r.mustBombs|
  {
    IdsWithInitial(r, BlockCell);
    IdsWithInitial(r, StarCell);
    IdsWithInitial(r, SwitchCell);
    IdsWithInitial(r, BombCell);
  }

  // ---------------------------------------------------------------------------
  // The per-cell bomb tally of `calculateBombProbability`
  // ---------------------------------------------------------------------------

  function HasBomb(i: int): Record -> bool
  {
    (s: Record) => i in s.normalBombs + s.powerBombs + s.negativeBombs
  }

  /** `bombCounts[i]`: each solution counts once for a cell it puts any bomb on, since
      its three lists are merged into a `Set` first; at most the number of solutions. */
  method BombCounts(sols: seq<Record>, total: nat) returns (counts: seq<nat>)
    ensures |counts| == total
    ensures forall i :: 0 <= i < total ==> counts[i] == |Filter(sols, HasBomb(i))| <= |sols|
  {
    var m := TallyBombs(sols);
    counts := [];
    for i := 0 to total
      invariant |counts| == i
      invariant forall c :: 0 <= c < i ==> counts[c] == Lookup(m, c)
    {
      counts := counts + [Lookup(m, i)];
    }
  }

  /** The outer loop of the tally: the map counts, per cell, the solutions bombing it. */
  method TallyBombs(sols: seq<Record>) returns (m: map<int, nat>)
    ensures forall k :: Lookup(m, k) == |Filter(sols, HasBomb(k))|
  {
    m := map[];
    for j := 0 to |sols|
      invariant forall k :: Lookup(m, k) == |Filter(sols[..j], HasBomb(k))|
    {
      var s := sols[j];
      var all := SolutionView.ToSet(s.normalBombs + s.powerBombs + s.negativeBombs);
      m := BumpEach(m, all);
      forall k ensures Lookup(m, k) == |Filter(sols[..j + 1], HasBomb(k))| {
        FilterSnoc(sols, j, HasBomb(k));
      }
    }
    assert sols[..|sols|] == sols;
  }

  /** The inner loop over a solution's bomb set: one more for each of its cells. */
  method BumpEach(m: map<int, nat>, all: seq<int>) returns (m': map<int, nat>)
    requires Distinct(all)
    ensures forall k :: Lookup(m', k) == Lookup(m, k) + (if k in all then 1 else 0)
  {
    m' := m;
    for l := 0 to |all|
      invariant forall k :: Lookup(m', k) == Lookup(m, k) + (if k in all[..l] then 1 else 0)
    {
      assert all[..l + 1] == all[..l] + [all[l]];
      assert all[l] !in all[..l] by {
        forall p | 0 <= p < l ensures all[..l][p] != all[l] {
          assert all[..l][p] == all[p];
        }
      }
      m' := Bump(m', all[l]);
    }
    assert all[..|all|] == all;
  }

  /** Filtering one more entry adds it when it is kept. */
  lemma FilterSnoc(sols: seq<Record>, j: nat, keep: Record -> bool)
    requires j < |sols|
    ensures |Filter(sols[..j + 1], keep)| == |Filter(sols[..j], keep)| + (if keep(sols[j]) then 1 else 0)
  {
    assert sols[..j + 1][..j] == sols[..j];
  }
}
