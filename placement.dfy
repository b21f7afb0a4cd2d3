/** The per-placement arithmetic shared by the solver generations: switch masks, the
    cells left to the player, the score of a placement and the per-cell field. */
module Placement {
  import opened Common

  // ---------------------------------------------------------------------------
  // Switch masks
  // ---------------------------------------------------------------------------

  /** JavaScript's `1 << n`: the shift count is taken modulo 32 and the result is a
      signed 32-bit integer. */
  function ShiftOne(n: nat): int
  {
    var s := n % 32;
    if s == 31 then -0x8000_0000 else Pow2(s)
  }

  /** With fewer than 31 switches `1 << n` is the number of switch states 2^n. */
  lemma ShiftOneExact(n: nat)
    requires n < 31
    ensures ShiftOne(n) == Pow2(n)
  {
    assert n % 32 == n;
  }

  /** At 31 switches the state count is negative (no mask is tried) and at 32 it wraps to 1. */
  lemma ShiftOneWraps()
    ensures ShiftOne(31) < 0 && ShiftOne(32) == 1
  {
  }

  /** `(mask >> j) & 1` for a non-negative mask below 2^31: the shift count is taken
      modulo 32. */
  predicate Bit(mask: int, j: nat)
  {
    (mask / Pow2(j % 32)) % 2 == 1
  }

  /** A JavaScript `Set` filled by `add` keeps its first insertion order; `Array.from`
      returns that order. */
  function AddOnce(s: seq<int>, x: int): (r: seq<int>)
    ensures forall y :: y in r <==> y in s || y == x
  {
    if x in s then s else s + [x]
  }

  /** `blockedSwitches` after the first `upto` switches of the mask loop. */
  function BlockedUpTo(switches: seq<int>, mask: int, upto: nat): seq<int>
    requires upto <= |switches|
  {
    if upto == 0 then []
    else
      var prev := BlockedUpTo(switches, mask, upto - 1);
      if Bit(mask, upto - 1) then AddOnce(prev, switches[upto - 1]) else prev
  }

  /** The switches a mask blocks, in their order. */
  function BlockedList(switches: seq<int>, mask: int): seq<int>
  {
    BlockedUpTo(switches, mask, |switches|)
  }

  /** Mask i blocks exactly the switches whose bit is set, each once. */
  lemma {:induction false} BlockedListExactly(switches: seq<int>, mask: int, upto: nat, x: int)
    requires upto <= |switches|
    ensures x in BlockedUpTo(switches, mask, upto) <==>
      exists j :: 0 <= j < upto && Bit(mask, j) && switches[j] == x
    ensures Distinct(BlockedUpTo(switches, mask, upto))
    decreases upto
  {
    if upto > 0 {
      BlockedListExactly(switches, mask, upto - 1, x);
      var prev := BlockedUpTo(switches, mask, upto - 1);
      if Bit(mask, upto - 1) && switches[upto - 1] !in prev {
        var ext := prev + [switches[upto - 1]];
        forall i, j | 0 <= i < j < |ext|
          ensures ext[i] != ext[j]
        {
          if j == |prev| {
            assert prev[i] in prev;
          }
        }
      }
    }
  }

  /** The bit loop of every solver: `if ((i >> j) & 1) blockedSwitches.add(switchArr[j])`. */
  method BlockedSwitches(switches: seq<int>, mask: int) returns (blocked: seq<int>)
    ensures blocked == BlockedList(switches, mask)
  {
    blocked := [];
    for j := 0 to |switches|
      invariant blocked == BlockedUpTo(switches, mask, j)
    {
      if (mask / Pow2(j % 32)) % 2 == 1 {
        if switches[j] !in blocked {
          blocked := blocked + [switches[j]];
        }
      }
    }
  }

  // ---------------------------------------------------------------------------
  // Cells left to the player
  // ---------------------------------------------------------------------------

  /** `availableForPlayer` after the first `upto` cell ids. */
  function Avail(upto: nat, blocked: set<int>, must: seq<int>): seq<int>
  {
    if upto == 0 then []
    else
      var prev := Avail(upto - 1, blocked, must);
      if upto - 1 !in blocked && upto - 1 !in must then prev + [upto - 1] else prev
  }

  /** The available cells are, in increasing order, exactly the ids of the board that are
      neither blocked nor must-bombs. */
  lemma {:induction false} AvailExactly(upto: nat, blocked: set<int>, must: seq<int>)
    ensures Increasing(Avail(upto, blocked, must))
    ensures forall x :: x in Avail(upto, blocked, must) <==> 0 <= x < upto && x !in blocked && x !in must
  {
    if upto > 0 {
      AvailExactly(upto - 1, blocked, must);
      var prev := Avail(upto - 1, blocked, must);
      if upto - 1 !in blocked && upto - 1 !in must {
        var ext := prev + [upto - 1];
        forall i, j | 0 <= i < j < |ext|
          ensures ext[i] < ext[j]
        {
          if j == |prev| {
            assert prev[i] in prev;
          }
        }
      }
    }
  }

  method AvailableCells(total: nat, blocked: set<int>, must: seq<int>) returns (avail: seq<int>)
    ensures avail == Avail(total, blocked, must)
  {
    avail := [];
    for k := 0 to total
      invariant avail == Avail(k, blocked, must)
    {
      if k !in blocked && k !in must {
        avail := avail + [k];
      }
    }
  }

  // ---------------------------------------------------------------------------
  // Score and field
  // ---------------------------------------------------------------------------

  /** Every entry is a cell id below `total`. */
  predicate Cells(bs: seq<int>, total: int)
  {
    forall j :: 0 <= j < |bs| ==> 0 <= bs[j] < total
  }

  /** Every neighbour list entry is a cell of the board. */
  predicate MapInBoard(nb: seq<seq<int>>)
  {
    forall i :: 0 <= i < |nb| ==> Cells(nb[i], |nb|)
  }

  /** `new Set([...a, ...b, ...c])`. */
  function BombSet(a: seq<int>, b: seq<int>, c: seq<int>): set<int>
  {
    set x | x in a + b + c
  }

  /** The weight w counted once for each entry of `list` that is not a bomb. */
  function FreeWeight(list: seq<int>, bombs: set<int>, w: int): int
  {
    if list == [] then 0
    else FreeWeight(list[..|list| - 1], bombs, w) + (if list[|list| - 1] in bombs then 0 else w)
  }

  /** The contribution of a bomb list of weight w: w per non-bomb neighbour of each bomb. */
  function Weighted(bs: seq<int>, nb: seq<seq<int>>, bombs: set<int>, w: int): int
    requires Cells(bs, |nb|)
  {
    if bs == [] then 0
    else Weighted(bs[..|bs| - 1], nb, bombs, w) + FreeWeight(nb[bs[|bs| - 1]], bombs, w)
  }

  lemma {:induction false} WeightedAppend(a: seq<int>, b: seq<int>, nb: seq<seq<int>>, bombs: set<int>, w: int)
    requires Cells(a, |nb|) && Cells(b, |nb|)
    ensures Cells(a + b, |nb|)
    ensures Weighted(a + b, nb, bombs, w) == Weighted(a, nb, bombs, w) + Weighted(b, nb, bombs, w)
    decreases |b|
  {
    if b == [] {
      assert a + b == a;
    } else {
      assert (a + b)[..|a + b| - 1] == a + b[..|b| - 1];
      WeightedAppend(a, b[..|b| - 1], nb, bombs, w);
    }
  }

  /** The score of a placement: +1 per non-bomb neighbour of each normal bomb, +2 for a power
      bomb and -1 for a negative bomb. */
  function Score(normal: seq<int>, power: seq<int>, neg: seq<int>, nb: seq<seq<int>>, bombs: set<int>): int
    requires Cells(normal, |nb|) && Cells(power, |nb|) && Cells(neg, |nb|)
  {
    Weighted(normal, nb, bombs, 1) + Weighted(power, nb, bombs, 2) + Weighted(neg, nb, bombs, -1)
  }

  /** One bomb type's loop: `for (b of bombs) for (n of neighborsMap[b]) if (!allBombsSet.has(n)) s += impact`. */
  method TypeScore(s0: int, bs: seq<int>, impact: int, nb: seq<seq<int>>, bombs: set<int>) returns (s: int)
    requires Cells(bs, |nb|)
    ensures s == s0 + Weighted(bs, nb, bombs, impact)
  {
    s := s0;
    for i := 0 to |bs|
      invariant s == s0 + Weighted(bs[..i], nb, bombs, impact)
    {
      assert bs[..i + 1][..i] == bs[..i];
      var list := nb[bs[i]];
      var before := s;
      for j := 0 to |list|
        invariant s == before + FreeWeight(list[..j], bombs, impact)
      {
        assert list[..j + 1][..j] == list[..j];
        if list[j] !in bombs {
          s := s + impact;
        }
      }
      assert list[..|list|] == list;
    }
    assert bs[..|bs|] == bs;
  }

  /** `calculateScoreImpact` of the LevelDesign and second-generation workers: the
      must-bombs count as normal bombs, ahead of the player's. */
  method CalculateScoreImpact(normal: seq<int>, power: seq<int>, neg: seq<int>, bombs: set<int>,
                              nb: seq<seq<int>>, must: seq<int>) returns (s: int)
    requires Cells(must, |nb|) && Cells(normal, |nb|) && Cells(power, |nb|) && Cells(neg, |nb|)
    ensures Cells(must + normal, |nb|)
    ensures s == Score(must + normal, power, neg, nb, bombs)
    ensures s == Weighted(must, nb, bombs, 1) + Weighted(normal, nb, bombs, 1)
               + Weighted(power, nb, bombs, 2) + Weighted(neg, nb, bombs, -1)
  {
    WeightedAppend(must, normal, nb, bombs, 1);
    var allNormal := must + normal;
    s := TypeScore(0, allNormal, 1, nb, bombs);
    s := TypeScore(s, power, 2, nb, bombs);
    s := TypeScore(s, neg, -1, nb, bombs);
  }

  /** `cellValues` after adding w for every non-bomb entry of one neighbour list. */
  function AddList(cv: seq<int>, list: seq<int>, bombs: set<int>, w: int): (r: seq<int>)
    requires Cells(list, |cv|)
    ensures |r| == |cv|
  {
    if list == [] then cv
    else
      var prev := AddList(cv, list[..|list| - 1], bombs, w);
      var n := list[|list| - 1];
      if n in bombs then prev else prev[n := prev[n] + w]
  }

  /** `addVal(bombs, w)`: every bomb of the list adds w to each of its non-bomb neighbours. */
  function AddImpact(cv: seq<int>, bs: seq<int>, nb: seq<seq<int>>, bombs: set<int>, w: int): (r: seq<int>)
    requires |cv| == |nb| && MapInBoard(nb) && Cells(bs, |nb|)
    ensures |r| == |cv|
  {
    if bs == [] then cv
    else AddList(AddImpact(cv, bs[..|bs| - 1], nb, bombs, w), nb[bs[|bs| - 1]], bombs, w)
  }

  /** A field with every cell at 0, as `for (c < totalCells) cellValues.set(c, 0)`. */
  function Zeros(total: nat): (r: seq<int>)
    ensures |r| == total && Sum(r) == 0
  {
    if total == 0 then [] else Zeros(total - 1) + [0]
  }

  lemma {:induction false} ZerosAreZero(n: nat, c: int)
    requires 0 <= c < n
    ensures Zeros(n)[c] == 0
  {
    if c < n - 1 {
      ZerosAreZero(n - 1, c);
    }
  }

  lemma ZerosAreAllZero(n: nat)
    ensures forall c :: 0 <= c < n ==> Zeros(n)[c] == 0
  {
    forall c | 0 <= c < n
      ensures Zeros(n)[c] == 0
    {
      ZerosAreZero(n, c);
    }
  }

  lemma {:induction false} SumUpdate(cv: seq<int>, n: int, w: int)
    requires 0 <= n < |cv|
    ensures Sum(cv[n := cv[n] + w]) == Sum(cv) + w
    decreases |cv|
  {
    var last := |cv| - 1;
    var upd := cv[n := cv[n] + w];
    assert upd[..last] == if n == last then cv[..last] else cv[..last][n := cv[n] + w];
    if n < last {
      SumUpdate(cv[..last], n, w);
    }
  }

  lemma {:induction false} AddListTotal(cv: seq<int>, list: seq<int>, bombs: set<int>, w: int)
    requires Cells(list, |cv|)
    ensures Sum(AddList(cv, list, bombs, w)) == Sum(cv) + FreeWeight(list, bombs, w)
    decreases |list|
  {
    if list != [] {
      AddListTotal(cv, list[..|list| - 1], bombs, w);
      var prev := AddList(cv, list[..|list| - 1], bombs, w);
      var n := list[|list| - 1];
      if n !in bombs {
        SumUpdate(prev, n, w);
      }
    }
  }

  /** The field total grows by exactly the bomb list's score contribution. */
  lemma {:induction false} AddImpactTotal(cv: seq<int>, bs: seq<int>, nb: seq<seq<int>>, bombs: set<int>, w: int)
    requires |cv| == |nb| && MapInBoard(nb) && Cells(bs, |nb|)
    ensures Sum(AddImpact(cv, bs, nb, bombs, w)) == Sum(cv) + Weighted(bs, nb, bombs, w)
    decreases |bs|
  {
    if bs != [] {
      AddImpactTotal(cv, bs[..|bs| - 1], nb, bombs, w);
      AddListTotal(AddImpact(cv, bs[..|bs| - 1], nb, bombs, w), nb[bs[|bs| - 1]], bombs, w);
    }
  }

  lemma {:induction false} AddListKeepsBombs(cv: seq<int>, list: seq<int>, bombs: set<int>, w: int, c: int)
    requires Cells(list, |cv|) && c in bombs && 0 <= c < |cv|
    ensures AddList(cv, list, bombs, w)[c] == cv[c]
    decreases |list|
  {
    if list != [] {
      AddListKeepsBombs(cv, list[..|list| - 1], bombs, w, c);
    }
  }

  /** A bomb cell never receives a value. */
  lemma {:induction false} AddImpactKeepsBombs(cv: seq<int>, bs: seq<int>, nb: seq<seq<int>>, bombs: set<int>, w: int, c: int)
    requires |cv| == |nb| && MapInBoard(nb) && Cells(bs, |nb|) && c in bombs && 0 <= c < |cv|
    ensures AddImpact(cv, bs, nb, bombs, w)[c] == cv[c]
    decreases |bs|
  {
    if bs != [] {
      AddImpactKeepsBombs(cv, bs[..|bs| - 1], nb, bombs, w, c);
      AddListKeepsBombs(AddImpact(cv, bs[..|bs| - 1], nb, bombs, w), nb[bs[|bs| - 1]], bombs, w, c);
    }
  }

  /** How often cell c occurs in the neighbour lists of the bombs of a list. */
  function Hits(bs: seq<int>, nb: seq<seq<int>>, c: int): nat
    requires Cells(bs, |nb|)
  {
    if bs == [] then 0 else Hits(bs[..|bs| - 1], nb, c) + Occurrences(nb[bs[|bs| - 1]], c)
  }

  function Occurrences(list: seq<int>, c: int): nat
  {
    if list == [] then 0 else Occurrences(list[..|list| - 1], c) + (if list[|list| - 1] == c then 1 else 0)
  }

  lemma {:induction false} AddListAt(cv: seq<int>, list: seq<int>, bombs: set<int>, w: int, c: int)
    requires Cells(list, |cv|) && c !in bombs && 0 <= c < |cv|
    ensures AddList(cv, list, bombs, w)[c] == cv[c] + w * Occurrences(list, c)
    decreases |list|
  {
    if list != [] {
      AddListAt(cv, list[..|list| - 1], bombs, w, c);
      MulAddLeft(w, Occurrences(list[..|list| - 1], c), 1);
    }
  }

  /** A non-bomb cell receives w once for each time it is a neighbour of a bomb of the list. */
  lemma {:induction false} AddImpactAt(cv: seq<int>, bs: seq<int>, nb: seq<seq<int>>, bombs: set<int>, w: int, c: int)
    requires |cv| == |nb| && MapInBoard(nb) && Cells(bs, |nb|) && c !in bombs && 0 <= c < |cv|
    ensures AddImpact(cv, bs, nb, bombs, w)[c] == cv[c] + w * Hits(bs, nb, c)
    decreases |bs|
  {
    if bs != [] {
      var prev := AddImpact(cv, bs[..|bs| - 1], nb, bombs, w);
      AddImpactAt(cv, bs[..|bs| - 1], nb, bombs, w, c);
      AddListAt(prev, nb[bs[|bs| - 1]], bombs, w, c);
      MulAddLeft(w, Hits(bs[..|bs| - 1], nb, c), Occurrences(nb[bs[|bs| - 1]], c));
    }
  }

  /** `addVal` as a loop over the bombs and their neighbour lists. */
  method AddVal(cv: seq<int>, bs: seq<int>, w: int, nb: seq<seq<int>>, bombs: set<int>) returns (r: seq<int>)
    requires |cv| == |nb| && MapInBoard(nb) && Cells(bs, |nb|)
    ensures r == AddImpact(cv, bs, nb, bombs, w)
  {
    r := cv;
    for i := 0 to |bs|
      invariant r == AddImpact(cv, bs[..i], nb, bombs, w)
    {
      assert bs[..i + 1][..i] == bs[..i];
      var list := nb[bs[i]];
      ghost var start := r;
      for j := 0 to |list|
        invariant |r| == |cv|
        invariant r == AddList(start, list[..j], bombs, w)
      {
        assert list[..j + 1][..j] == list[..j];
        if list[j] !in bombs {
          r := r[list[j] := r[list[j]] + w];
        }
      }
      assert list[..|list|] == list;
    }
    assert bs[..|bs|] == bs;
  }

  // ---------------------------------------------------------------------------
  // The value field of a placement
  // ---------------------------------------------------------------------------

  /** The cell values of a placement as `calculateCellValues` builds them: zeros, then each
      normal bomb adds 1, each power bomb 2 and each negative bomb -1 to each non-bomb
      neighbour. */
  function CellField(nb: seq<seq<int>>, bombs: set<int>, normal: seq<int>, power: seq<int>, neg: seq<int>): (cv: seq<int>)
    requires MapInBoard(nb) && Cells(normal, |nb|) && Cells(power, |nb|) && Cells(neg, |nb|)
    ensures |cv| == |nb|
  {
    AddImpact(AddImpact(AddImpact(Zeros(|nb|), normal, nb, bombs, 1), power, nb, bombs, 2), neg, nb, bombs, -1)
  }

  /** The values of the field add up to the placement's score. */
  lemma CellFieldTotal(nb: seq<seq<int>>, bombs: set<int>, normal: seq<int>, power: seq<int>, neg: seq<int>)
    requires MapInBoard(nb) && Cells(normal, |nb|) && Cells(power, |nb|) && Cells(neg, |nb|)
    ensures Sum(CellField(nb, bombs, normal, power, neg)) == Score(normal, power, neg, nb, bombs)
  {
    var z := Zeros(|nb|);
    AddImpactTotal(z, normal, nb, bombs, 1);
    var a := AddImpact(z, normal, nb, bombs, 1);
    AddImpactTotal(a, power, nb, bombs, 2);
    var b := AddImpact(a, power, nb, bombs, 2);
    AddImpactTotal(b, neg, nb, bombs, -1);
  }

  /** A bomb cell keeps the value 0; a free cell holds its weighted count of bomb neighbours. */
  lemma CellFieldAt(nb: seq<seq<int>>, bombs: set<int>, normal: seq<int>, power: seq<int>, neg: seq<int>, c: int)
    requires MapInBoard(nb) && Cells(normal, |nb|) && Cells(power, |nb|) && Cells(neg, |nb|)
    requires 0 <= c < |nb|
    ensures c in bombs ==> CellField(nb, bombs, normal, power, neg)[c] == 0
    ensures c !in bombs ==>
      CellField(nb, bombs, normal, power, neg)[c] == Hits(normal, nb, c) + 2 * Hits(power, nb, c) - Hits(neg, nb, c)
  {
    var z := Zeros(|nb|);
    ZerosAreZero(|nb|, c);
    var a := AddImpact(z, normal, nb, bombs, 1);
    var b := AddImpact(a, power, nb, bombs, 2);
    if c in bombs {
      AddImpactKeepsBombs(z, normal, nb, bombs, 1, c);
      AddImpactKeepsBombs(a, power, nb, bombs, 2, c);
      AddImpactKeepsBombs(b, neg, nb, bombs, -1, c);
    } else {
      AddImpactAt(z, normal, nb, bombs, 1, c);
      AddImpactAt(a, power, nb, bombs, 2, c);
      AddImpactAt(b, neg, nb, bombs, -1, c);
    }
  }

  /** The three `addVal` passes over a zero field. */
  method ComputeCellValues(nb: seq<seq<int>>, bombs: set<int>, normal: seq<int>, power: seq<int>, neg: seq<int>) returns (cv: seq<int>)
    requires MapInBoard(nb) && Cells(normal, |nb|) && Cells(power, |nb|) && Cells(neg, |nb|)
    ensures cv == CellField(nb, bombs, normal, power, neg)
  {
    cv := Zeros(|nb|);
    cv := AddVal(cv, normal, 1, nb, bombs);
    cv := AddVal(cv, power, 2, nb, bombs);
    cv := AddVal(cv, neg, -1, nb, bombs);
  }
}
