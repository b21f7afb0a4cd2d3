/** The numbers the editor shows when a solution is viewed (`refreshGridVisual(solution)`
    in both in-page generations): the record's bomb lists, read through `Set`s, spread
    +1, +2 and -1 over their non-bomb neighbours, where the neighbours are computed with
    the level's blocks together with the record's blocked switches. */
module SolutionView {
  import opened Common
  import opened Conditions
  import opened Grid
  import opened Placement
  import opened Search
  import opened Stars

  /** `new Set(list)` iterated in insertion order: each value at its first occurrence. */
  function Dedup(s: seq<int>): (r: seq<int>)
    ensures Distinct(r) && forall x :: x in r <==> x in s
  {
    if s == [] then []
    else
      var p := Dedup(s[..|s| - 1]);
      var x := s[|s| - 1];
      if x in p then p
      else
        assert forall y :: y in s[..|s| - 1] ==> y in s;
        p + [x]
  }

  /** A list without repeats goes through a `Set` unchanged. */
  lemma {:induction false} DedupDistinct(s: seq<int>)
    requires Distinct(s)
    ensures Dedup(s) == s
    decreases |s|
  {
    if s != [] {
      var init := s[..|s| - 1];
      DedupDistinct(init);
      assert s[|s| - 1] !in init by {
        forall j | 0 <= j < |init|
          ensures init[j] != s[|s| - 1]
        {
          assert init[j] == s[j];
        }
      }
      assert init + [s[|s| - 1]] == s;
    }
  }

  /** The bombs of a list that have an entry in the neighbour map; `neighbors[b] || []`
      gives the others no neighbours, so they add nothing. */
  function InBoard(bs: seq<int>, n: int): (r: seq<int>)
    ensures Cells(r, n)
    ensures forall x :: x in r <==> x in bs && 0 <= x < n
  {
    if bs == [] then []
    else
      var p := InBoard(bs[..|bs| - 1], n);
      var b := bs[|bs| - 1];
      assert forall y :: y in bs[..|bs| - 1] ==> y in bs;
      if 0 <= b < n then p + [b] else p
  }

  lemma {:induction false} InBoardAll(bs: seq<int>, n: int)
    requires Cells(bs, n)
    ensures InBoard(bs, n) == bs
    decreases |bs|
  {
    if bs != [] {
      InBoardAll(bs[..|bs| - 1], n);
      assert bs[..|bs| - 1] + [bs[|bs| - 1]] == bs;
    }
  }

  /** The neighbour map of the viewed solution: blocks and blocked switches are walls. */
  function ViewNeighbors(rows: nat, cols: nat, blocks: seq<int>, sol: Record): (nb: seq<seq<int>>)
    ensures |nb| == rows * cols && MapInBoard(nb)
  {
    NeighborMapInBoard(rows, cols, set x | x in blocks + sol.switchState);
    NeighborMap(rows, cols, set x | x in blocks + sol.switchState)
  }

  /** `allBombs`: every bomb of the three lists. */
  function ViewBombs(sol: Record): set<int>
  {
    BombSet(sol.normalBombs, sol.powerBombs, sol.negativeBombs)
  }

  /** The `numbers` of a viewed solution, one per cell id. */
  function Numbers(rows: nat, cols: nat, blocks: seq<int>, sol: Record): (cv: seq<int>)
    ensures |cv| == rows * cols
  {
    var nb := ViewNeighbors(rows, cols, blocks, sol);
    CellField(nb, ViewBombs(sol), InBoard(Dedup(sol.normalBombs), |nb|),
      InBoard(Dedup(sol.powerBombs), |nb|), InBoard(Dedup(sol.negativeBombs), |nb|))
  }

  /** A bomb of the viewed solution always shows 0; any other cell shows +1, +2 or -1 for
      each time it neighbours a normal, power or negative bomb. */
  lemma NumbersAt(rows: nat, cols: nat, blocks: seq<int>, sol: Record, c: int)
    requires 0 <= c < rows * cols
    ensures var nb := ViewNeighbors(rows, cols, blocks, sol);
      var n := Numbers(rows, cols, blocks, sol);
      var normal := InBoard(Dedup(sol.normalBombs), |nb|);
      var power := InBoard(Dedup(sol.powerBombs), |nb|);
      var neg := InBoard(Dedup(sol.negativeBombs), |nb|);
      (c in ViewBombs(sol) ==> n[c] == 0) &&
      (c !in ViewBombs(sol) ==> n[c] == Hits(normal, nb, c) + 2 * Hits(power, nb, c) - Hits(neg, nb, c))
  {
    var nb := ViewNeighbors(rows, cols, blocks, sol);
    CellFieldAt(nb, ViewBombs(sol), InBoard(Dedup(sol.normalBombs), |nb|),
      InBoard(Dedup(sol.powerBombs), |nb|), InBoard(Dedup(sol.negativeBombs), |nb|), c);
  }

  /** For bomb lists without repeats, inside the board, the view shows the value field of
      the lists themselves. */
  lemma NumbersOfCleanLists(rows: nat, cols: nat, blocks: seq<int>, sol: Record)
    requires Distinct(sol.normalBombs) && Distinct(sol.powerBombs) && Distinct(sol.negativeBombs)
    requires Cells(sol.normalBombs, rows * cols) && Cells(sol.powerBombs, rows * cols) && Cells(sol.negativeBombs, rows * cols)
    ensures Numbers(rows, cols, blocks, sol) ==
      CellField(ViewNeighbors(rows, cols, blocks, sol), ViewBombs(sol), sol.normalBombs, sol.powerBombs, sol.negativeBombs)
  {
    DedupDistinct(sol.normalBombs);
    DedupDistinct(sol.powerBombs);
    DedupDistinct(sol.negativeBombs);
    InBoardAll(sol.normalBombs, rows * cols);
    InBoardAll(sol.powerBombs, rows * cols);
    InBoardAll(sol.negativeBombs, rows * cols);
  }

  lemma IncreasingDistinct(s: seq<int>)
    requires Increasing(s)
    ensures Distinct(s)
  {
  }

  /** The must-bombs followed by a normal combination repeat no cell. */
  lemma FinalNormalDistinct(must: seq<int>, normal: seq<int>)
    requires Distinct(must) && Increasing(normal) && Disjoint(must, normal)
    ensures Distinct(must + normal)
  {
    var s := must + normal;
    forall i, j | 0 <= i < j < |s|
      ensures s[i] != s[j]
    {
      if j >= |must| && i < |must| {
        assert s[i] in must && s[j] == normal[j - |must|];
      }
    }
  }

  /** Viewing a record the search produced shows exactly the value field the solver
      evaluated that placement's star conditions on, and its numbers add up to the
      record's sum. */
  lemma ViewShowsSolverField(groups: seq<seq<Condition>>, sp: Space, e: Event)
    requires WellFormed(sp) && e.Place? && PlaceGood(sp, e)
    ensures PlaceOk(sp, e.view, e.normal, e.power, e.neg)
    ensures var r := RecordOf(groups, sp, e.view, e.normal, e.power, e.neg);
      Numbers(sp.rows, sp.cols, sp.blocks, r) ==
        CellField(e.view.nb, ViewBombs(r), r.normalBombs, r.powerBombs, r.negativeBombs) &&
      Sum(Numbers(sp.rows, sp.cols, sp.blocks, r)) == r.sum
  {
    GoodIsOk(sp, e);
    var r := RecordOf(groups, sp, e.view, e.normal, e.power, e.neg);
    FinalNormalDistinct(sp.must, e.normal);
    IncreasingDistinct(e.power);
    IncreasingDistinct(e.neg);
    assert ViewNeighbors(sp.rows, sp.cols, sp.blocks, r) == e.view.nb;
    NumbersOfCleanLists(sp.rows, sp.cols, sp.blocks, r);
  }

  // ---------------------------------------------------------------------------
  // The loops of the solution branch
  // ---------------------------------------------------------------------------

  /** `new Set(list)`. */
  method ToSet(list: seq<int>) returns (r: seq<int>)
    ensures r == Dedup(list)
  {
    r := [];
    for i := 0 to |list|
      invariant r == Dedup(list[..i])
    {
      assert list[..i + 1][..i] == list[..i];
      if list[i] !in r {
        r := r + [list[i]];
      }
    }
    assert list[..|list|] == list;
  }

  /** `bombSet.forEach(b => { for (nb of neighbors[b] || []) if (!allBombs.has(nb))
      numbers[nb] += w; })`. */
  method Spread(numbers: seq<int>, bs: seq<int>, w: int, nb: seq<seq<int>>, all: set<int>) returns (r: seq<int>)
    requires |numbers| == |nb| && MapInBoard(nb)
    ensures r == AddImpact(numbers, InBoard(bs, |nb|), nb, all, w)
  {
    r := numbers;
    for i := 0 to |bs|
      invariant r == AddImpact(numbers, InBoard(bs[..i], |nb|), nb, all, w)
    {
      InBoardSnoc(bs, i, |nb|);
      var list := if 0 <= bs[i] < |nb| then nb[bs[i]] else [];
      if 0 <= bs[i] < |nb| {
        ImpactSnoc(numbers, InBoard(bs[..i], |nb|), bs[i], nb, all, w);
      }
      r := SpreadList(r, list, all, w);
    }
    assert bs[..|bs|] == bs;
  }

  /** The inner loop of `Spread`: w added at every listed cell that is not a bomb. */
  method SpreadList(start: seq<int>, list: seq<int>, all: set<int>, w: int) returns (r: seq<int>)
    requires Cells(list, |start|)
    ensures r == AddList(start, list, all, w)
  {
    r := start;
    for j := 0 to |list|
      invariant |r| == |start|
      invariant r == AddList(start, list[..j], all, w)
    {
      assert list[..j + 1][..j] == list[..j];
      if list[j] !in all {
        r := r[list[j] := r[list[j]] + w];
      }
    }
    assert list[..|list|] == list;
  }

  /** One more bomb: kept when it is on the board. */
  lemma InBoardSnoc(bs: seq<int>, i: nat, n: int)
    requires i < |bs|
    ensures InBoard(bs[..i + 1], n) == if 0 <= bs[i] < n then InBoard(bs[..i], n) + [bs[i]] else InBoard(bs[..i], n)
  {
    assert bs[..i + 1][..i] == bs[..i];
  }

  /** One more bomb on the board adds its neighbours' impact. */
  lemma ImpactSnoc(cv: seq<int>, bs: seq<int>, b: int, nb: seq<seq<int>>, all: set<int>, w: int)
    requires |cv| == |nb| && MapInBoard(nb) && Cells(bs, |nb|) && 0 <= b < |nb|
    ensures Cells(bs + [b], |nb|)
    ensures AddImpact(cv, bs + [b], nb, all, w) == AddList(AddImpact(cv, bs, nb, all, w), nb[b], all, w)
  {
    assert (bs + [b])[..|bs|] == bs;
  }

  /** The solution branch of `refreshGridVisual`. */
  method SolutionNumbers(rows: nat, cols: nat, blocks: seq<int>, sol: Record) returns (numbers: seq<int>)
    ensures numbers == Numbers(rows, cols, blocks, sol)
  {
    var normalSet := ToSet(sol.normalBombs);
    var powerSet := ToSet(sol.powerBombs);
    var negativeSet := ToSet(sol.negativeBombs);
    var currentBlocks := CurrentBlocks(blocks, sol.switchState);
    var nbArr := ComputeNeighbors(rows, cols, currentBlocks);
    var nb := nbArr[..];
    assert nb == ViewNeighbors(rows, cols, blocks, sol);
    numbers := Zeros(rows * cols);
    var all := set x | x in normalSet + powerSet + negativeSet;
    assert all == ViewBombs(sol);
    numbers := Spread(numbers, normalSet, 1, nb, all);
    numbers := Spread(numbers, powerSet, 2, nb, all);
    numbers := Spread(numbers, negativeSet, -1, nb, all);
  }
}
