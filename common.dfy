/** Small value types and sequence helpers shared by the Minesetter model. */
module Common {

  /** The conventional optional value; stands for JavaScript's `undefined`, `null`,
      `NaN` or an infinite bound wherever the model says so. */
  datatype Option<T> = None | Some(value: T)

  /** `x in s` for a sequence, as JavaScript's `Array.prototype.includes`. */
  predicate Includes(s: seq<int>, x: int)
  {
    exists j :: 0 <= j < |s| && s[j] == x
  }

  /** `s.filter(x => !drop.includes(x))`: the elements of `s` not in `drop`, in order. */
  function Without(s: seq<int>, drop: seq<int>): (r: seq<int>)
    ensures |r| <= |s|
    ensures forall x :: x in r <==> x in s && x !in drop
  {
    if s == [] then []
    else if s[0] in drop then Without(s[1..], drop)
    else [s[0]] + Without(s[1..], drop)
  }

  /** `parseInt(text, 10) || d` over the parsed value (`None` for NaN): NaN and 0 are both falsy and give the default. */
  function OrDefault(x: Option<int>, d: int): (r: int)
    ensures x.Some? && x.value != 0 ==> r == x.value
    ensures x.None? || x.value == 0 ==> r == d
  {
    if x.None? || x.value == 0 then d else x.value
  }

  /** No value occurs twice. */
  predicate Distinct(s: seq<int>)
  {
    forall i, j :: 0 <= i < j < |s| ==> s[i] != s[j]
  }

  /** Strictly increasing, hence also distinct. */
  predicate Increasing(s: seq<int>)
  {
    forall i, j :: 0 <= i < j < |s| ==> s[i] < s[j]
  }

  /** A set is empty or has a member. */
  lemma ElemOrEmpty(s: set<int>)
    ensures s == {} || exists k :: k in s
  {
    if forall k :: k !in s {
      assert s == {};
    }
  }

  function Min(a: nat, b: nat): nat
  {
    if a < b then a else b
  }

  function Pow2(n: nat): (r: nat)
    ensures r >= 1
  {
    if n == 0 then 1 else 2 * Pow2(n - 1)
  }

  /** Sum of a sequence of integers. */
  function Sum(s: seq<int>): int
  {
    if s == [] then 0 else Sum(s[..|s| - 1]) + s[|s| - 1]
  }

  lemma {:induction false} SumAppend(s: seq<int>, t: seq<int>)
    ensures Sum(s + t) == Sum(s) + Sum(t)
    decreases |t|
  {
    if t == [] {
      assert s + t == s;
    } else {
      assert (s + t)[..|s + t| - 1] == s + t[..|t| - 1];
      SumAppend(s, t[..|t| - 1]);
    }
  }

  // ---------------------------------------------------------------------------
  // Integer arithmetic facts the solver does not find on its own
  // ---------------------------------------------------------------------------

  lemma MulAddLeft(x: int, y: int, z: int)
    ensures x * (y + z) == x * y + x * z
  {
  }

  lemma MulAddRight(x: int, y: int, z: int)
    ensures (x + y) * z == x * z + y * z
  {
  }

  lemma MulAssoc(x: int, y: int, z: int)
    ensures x * (y * z) == (x * y) * z
  {
  }

  lemma MulComm(x: int, y: int)
    ensures x * y == y * x
  {
  }

  lemma {:induction false} MulPositive(d: int, e: int)
    requires d > 0 && e >= 1
    ensures d * e >= d
    decreases e
  {
    if e > 1 {
      MulPositive(d, e - 1);
      MulAddLeft(d, e - 1, 1);
    }
  }

  /** A positive factor preserves order. */
  lemma FactorAtLeast(x: int, y: int, t: int)
    requires t > 0 && x >= y
    ensures x * t >= y * t
  {
    assert x * t - y * t == (x - y) * t;
  }

  /** A positive factor preserves strict order. */
  lemma FactorBelow(x: int, y: int, t: int)
    requires t > 0 && x * t < y * t
    ensures x < y
  {
    assert (y - x) * t > 0;
  }

  lemma DivideExact(x: int, d: int, q: int)
    requires d > 0 && x == d * q
    ensures x / d == q
  {
    var r := x / d;
    var m := x % d;
    assert x == d * r + m && 0 <= m < d;
    var e := q - r;
    assert d * e == m by { MulAddLeft(d, q, -r); }
    if e >= 1 {
      MulPositive(d, e);
    } else if e <= -1 {
      MulPositive(d, -e);
    }
  }

  /** Euclidean division by a positive divisor is the unique quotient/remainder pair. */
  lemma DivModUnique(x: int, d: int, q: int, m: int)
    requires d > 0 && 0 <= m < d && x == q * d + m
    ensures x / d == q && x % d == m
  {
    var r := x / d;
    var e := q - r;
    assert x == d * r + x % d && 0 <= x % d < d;
    assert d * e == x % d - m by { MulAddLeft(d, q, -r); }
    if e >= 1 {
      MulPositive(d, e);
    } else if e <= -1 {
      MulPositive(d, -e);
    }
  }
}
