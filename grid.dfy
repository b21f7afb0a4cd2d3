/** The board: cell ids in row-major order and the 8-neighbourhood that every solver
    generation and the result view compute with `computeNeighbors`. */
module Grid {
  import opened Common

  // ---------------------------------------------------------------------------
  // Cell ids and (row, column) pairs
  // ---------------------------------------------------------------------------

  /** JavaScript's `%`: the remainder takes the sign of the dividend. */
  function JsRem(a: int, b: int): (r: int)
    requires b > 0
    ensures a >= 0 ==> r == a % b
  {
    if a >= 0 then a % b else -((-a) % b)
  }

  datatype RC = RC(r: int, c: int)

  /** `idxToRC`: the row by `Math.floor(i / cols)` (Euclidean division by a positive
      divisor is floor division), the column by `i % cols`. */
  function IdxToRC(i: int, cols: int): RC
    requires cols > 0
  {
    RC(i / cols, JsRem(i, cols))
  }

  /** `rcToIdx`. */
  function RcToIdx(r: int, c: int, cols: int): int
  {
    r * cols + c
  }

  /** Converting a non-negative id to (row, column) and back gives the id again. */
  lemma IdxRoundTrip(i: int, cols: int)
    requires cols > 0 && i >= 0
    ensures RcToIdx(IdxToRC(i, cols).r, IdxToRC(i, cols).c, cols) == i
  {
    MulComm(i / cols, cols);
  }

  /** Converting an in-board (row, column) pair to an id and back gives the pair again. */
  lemma RcRoundTrip(r: int, c: int, cols: int)
    requires cols > 0 && r >= 0 && 0 <= c < cols
    ensures IdxToRC(RcToIdx(r, c, cols), cols) == RC(r, c)
  {
    MulPositiveOrZero(r, cols);
    DivModUnique(r * cols + c, cols, r, c);
  }

  lemma MulPositiveOrZero(r: int, cols: int)
    requires r >= 0 && cols > 0
    ensures r * cols >= 0
  {
  }

  /** For a negative id the two conversions disagree: -1 in a 3-column board becomes
      row -1, column -1 and then id -4. Ids in the program are never negative. */
  lemma NegativeIdNoRoundTrip()
    ensures IdxToRC(-1, 3) == RC(-1, -1)
    ensures RcToIdx(-1, -1, 3) == -4
  {
  }

  // ---------------------------------------------------------------------------
  // computeNeighbors
  // ---------------------------------------------------------------------------

  /** The scan visits the offsets (dr, dc) row by row: slot p stands for
      dr = p / 3 - 1, dc = p % 3 - 1, and slot 4 is the cell itself, which is skipped.
      The result is the in-board cell at that offset, if there is one. */
  function Target(rows: int, cols: int, i: int, p: int): Option<int>
    requires cols > 0 && 0 <= p < 9
  {
    var rr := i / cols + (p / 3 - 1);
    var cc := i % cols + (p % 3 - 1);
    if p == 4 then None
    else if 0 <= rr < rows && 0 <= cc < cols then Some(rr * cols + cc)
    else None
  }

  /** The neighbour list after the first p slots of the scan: in-board, unblocked targets. */
  function ScanUpTo(rows: int, cols: int, blocked: set<int>, i: int, p: int): seq<int>
    requires cols > 0 && 0 <= p <= 9
  {
    if p == 0 then []
    else
      ScanUpTo(rows, cols, blocked, i, p - 1) +
      match Target(rows, cols, i, p - 1)
      case Some(ni) => if ni in blocked then [] else [ni]
      case None => []
  }

  /** The neighbour list of cell i: empty for a blocked cell. */
  function NeighborsOf(rows: nat, cols: nat, blocked: set<int>, i: int): seq<int>
    requires cols > 0
  {
    if i in blocked then [] else ScanUpTo(rows, cols, blocked, i, 9)
  }

  /** The whole neighbour map, indexed by cell id. */
  function NeighborMap(rows: nat, cols: nat, blocked: set<int>): (m: seq<seq<int>>)
    ensures |m| == rows * cols
  {
    seq(rows * cols, i requires 0 <= i < rows * cols =>
      ColsPositive(rows, cols);
      NeighborsOf(rows, cols, blocked, i))
  }

  /** Two distinct unblocked cells of the board whose rows and columns differ by at most one. */
  predicate Adjacent(rows: nat, cols: nat, blocked: set<int>, i: int, j: int)
    requires cols > 0
  {
    0 <= i < rows * cols && 0 <= j < rows * cols && i !in blocked && j !in blocked && i != j &&
    -1 <= j / cols - i / cols <= 1 && -1 <= j % cols - i % cols <= 1
  }

  lemma ColsPositive(rows: nat, cols: nat)
    requires rows * cols > 0
    ensures cols > 0
  {
  }

  /** The scan of the eight offsets around an unblocked cell i. */
  method ScanCell(rows: nat, cols: nat, blocked: set<int>, i: int) returns (list: seq<int>)
    requires cols > 0
    ensures list == ScanUpTo(rows, cols, blocked, i, 9)
  {
    var r := i / cols;
    var c := i % cols;
    list := [];
    for dr := -1 to 2
      invariant list == ScanUpTo(rows, cols, blocked, i, 3 * (dr + 1))
    {
      for dc := -1 to 2
        invariant list == ScanUpTo(rows, cols, blocked, i, 3 * (dr + 1) + (dc + 1))
      {
        ScanSlot(rows, cols, blocked, i, dr, dc);
        list := Visit(rows, cols, blocked, i, r, c, dr, dc, list);
      }
    }
  }

  /** The body of the offset loop: skip the cell itself, then keep an in-board,
      unblocked target. */
  method Visit(rows: nat, cols: nat, blocked: set<int>, i: int, r: int, c: int, dr: int, dc: int, list: seq<int>)
    returns (list': seq<int>)
    requires cols > 0 && r == i / cols && c == i % cols
    ensures list' == list + Emitted(rows, cols, blocked, i, dr, dc)
  {
    list' := list;
    if dr == 0 && dc == 0 {
      return;
    }
    var rr := r + dr;
    var cc := c + dc;
    if rr >= 0 && rr < rows && cc >= 0 && cc < cols {
      var ni := rr * cols + cc;
      if ni !in blocked {
        list' := list + [ni];
      }
    }
  }

  /** What the scan adds at offset (dr, dc). */
  function Emitted(rows: nat, cols: nat, blocked: set<int>, i: int, dr: int, dc: int): seq<int>
    requires cols > 0
  {
    var rr := i / cols + dr;
    var cc := i % cols + dc;
    if dr == 0 && dc == 0 then []
    else if 0 <= rr < rows && 0 <= cc < cols && rr * cols + cc !in blocked then [rr * cols + cc]
    else []
  }

  /** The slot of offset (dr, dc) adds what the scan adds there. */
  lemma ScanSlot(rows: nat, cols: nat, blocked: set<int>, i: int, dr: int, dc: int)
    requires cols > 0 && -1 <= dr <= 1 && -1 <= dc <= 1
    ensures ScanUpTo(rows, cols, blocked, i, 3 * (dr + 1) + (dc + 1) + 1) ==
      ScanUpTo(rows, cols, blocked, i, 3 * (dr + 1) + (dc + 1)) + Emitted(rows, cols, blocked, i, dr, dc)
  {
    var p := 3 * (dr + 1) + (dc + 1);
    assert p / 3 - 1 == dr && p % 3 - 1 == dc;
  }

  method ComputeNeighbors(rows: nat, cols: nat, blocked: set<int>) returns (nb: array<seq<int>>)
    ensures fresh(nb) && nb[..] == NeighborMap(rows, cols, blocked)
  {
    var total := rows * cols;
    nb := new seq<int>[total](_ => []);
    for i := 0 to total
      invariant forall m :: 0 <= m < i ==> nb[m] == NeighborMap(rows, cols, blocked)[m]
    {
      ColsPositive(rows, cols);
      if i in blocked {
        nb[i] := [];
        continue;
      }
      nb[i] := ScanCell(rows, cols, blocked, i);
    }
  }

  // ---------------------------------------------------------------------------
  // What the neighbour map means
  // ---------------------------------------------------------------------------

  /** The scan reaches exactly the in-board cells at the offsets of the first p slots. */
  lemma {:induction false} ScanMembers(rows: nat, cols: nat, blocked: set<int>, i: int, p: int, j: int)
    requires cols > 0 && 0 <= p <= 9
    ensures j in ScanUpTo(rows, cols, blocked, i, p) <==>
      j !in blocked && exists q :: 0 <= q < p && Target(rows, cols, i, q) == Some(j)
    decreases p
  {
    if p > 0 {
      ScanMembers(rows, cols, blocked, i, p - 1, j);
    }
  }

  /** The target of slot q, decoded back to (row, column). */
  lemma TargetDecodes(rows: nat, cols: nat, i: int, q: int, j: int)
    requires cols > 0 && i >= 0 && 0 <= q < 9 && Target(rows, cols, i, q) == Some(j)
    ensures 0 <= j < rows * cols
    ensures j / cols == i / cols + (q / 3 - 1) && j % cols == i % cols + (q % 3 - 1)
  {
    var rr := i / cols + (q / 3 - 1);
    var cc := i % cols + (q % 3 - 1);
    DivModUnique(j, cols, rr, cc);
    MulPositiveOrZero(rr, cols);
    MulAddRight(rr, 1, cols);
    assert (rr + 1) * cols <= rows * cols by { MulLeMono(rr + 1, rows, cols); }
  }

  lemma MulLeMono(a: int, b: int, c: int)
    requires a <= b && c >= 0
    ensures a * c <= b * c
  {
    MulAddRight(b - a, a, c);
    if b - a >= 1 && c > 0 {
      MulPositive(c, b - a);
      MulComm(c, b - a);
    }
  }

  lemma SameRowColumn(i: int, j: int, cols: int)
    requires cols > 0
    ensures i / cols == j / cols && i % cols == j % cols ==> i == j
  {
    MulComm(i / cols, cols);
    MulComm(j / cols, cols);
  }

  /** A neighbour of i lies in some slot of the scan of i. */
  lemma SlotOf(rows: nat, cols: nat, blocked: set<int>, i: int, j: int) returns (q: int)
    requires cols > 0 && Adjacent(rows, cols, blocked, i, j)
    ensures 0 <= q < 9 && Target(rows, cols, i, q) == Some(j)
  {
    var dr := j / cols - i / cols;
    var dc := j % cols - i % cols;
    q := 3 * (dr + 1) + (dc + 1);
    OffsetSlot(dr, dc);
    SameRowColumn(i, j, cols);
    RowOnBoard(j, rows, cols);
    TargetAt(rows, cols, i, q, dr, dc);
    assert j == (j / cols) * cols + j % cols by { MulComm(j / cols, cols); }
  }

  /** The slot of an offset within one row and one column decodes to that offset. */
  lemma OffsetSlot(dr: int, dc: int)
    requires -1 <= dr <= 1 && -1 <= dc <= 1
    ensures var q := 3 * (dr + 1) + (dc + 1);
      0 <= q < 9 && q / 3 - 1 == dr && q % 3 - 1 == dc && (q == 4 <==> dr == 0 && dc == 0)
  {
  }

  /** An id on the board has its row on the board. */
  lemma RowOnBoard(j: int, rows: nat, cols: nat)
    requires cols > 0 && 0 <= j < rows * cols
    ensures 0 <= j / cols < rows
  {
    assert j == (j / cols) * cols + j % cols by { MulComm(j / cols, cols); }
    if j / cols >= rows {
      MulLeMono(rows, j / cols, cols);
    }
  }

  /** The target of a slot other than the cell's own, by its offset. */
  lemma TargetAt(rows: nat, cols: nat, i: int, q: int, dr: int, dc: int)
    requires cols > 0 && 0 <= q < 9 && q != 4 && q / 3 - 1 == dr && q % 3 - 1 == dc
    ensures var rr := i / cols + dr; var cc := i % cols + dc;
      Target(rows, cols, i, q) == if 0 <= rr < rows && 0 <= cc < cols then Some(rr * cols + cc) else None
  {
  }

  /** j is listed as a neighbour of i exactly when the two cells are adjacent: distinct,
      both unblocked and on the board, rows and columns at most one apart. */
  lemma NeighborsExactly(rows: nat, cols: nat, blocked: set<int>, i: int, j: int)
    requires cols > 0 && 0 <= i < rows * cols
    ensures j in NeighborMap(rows, cols, blocked)[i] <==> Adjacent(rows, cols, blocked, i, j)
  {
    ScanMembers(rows, cols, blocked, i, 9, j);
    if j in NeighborMap(rows, cols, blocked)[i] {
      var q :| 0 <= q < 9 && Target(rows, cols, i, q) == Some(j);
      TargetDecodes(rows, cols, i, q, j);
    }
    if Adjacent(rows, cols, blocked, i, j) {
      var q := SlotOf(rows, cols, blocked, i, j);
    }
  }

  /** Adjacency is symmetric, hence so is the neighbour map. */
  lemma NeighborsSymmetric(rows: nat, cols: nat, blocked: set<int>, i: int, j: int)
    requires 0 <= i < rows * cols && 0 <= j < rows * cols
    requires j in NeighborMap(rows, cols, blocked)[i]
    ensures i in NeighborMap(rows, cols, blocked)[j]
  {
    ColsPositive(rows, cols);
    NeighborsExactly(rows, cols, blocked, i, j);
    NeighborsExactly(rows, cols, blocked, j, i);
  }

  /** A neighbour list holds at most 8 cells, none twice, never the cell itself and never
      a blocked cell. */
  lemma NeighborListShape(rows: nat, cols: nat, blocked: set<int>, i: int)
    requires 0 <= i < rows * cols
    ensures |NeighborMap(rows, cols, blocked)[i]| <= 8
    ensures Distinct(NeighborMap(rows, cols, blocked)[i])
    ensures i !in NeighborMap(rows, cols, blocked)[i]
    ensures forall j :: j in NeighborMap(rows, cols, blocked)[i] ==> j !in blocked && 0 <= j < rows * cols
  {
    ColsPositive(rows, cols);
    forall j | j in NeighborMap(rows, cols, blocked)[i]
      ensures j !in blocked && 0 <= j < rows * cols && j != i
    {
      NeighborsExactly(rows, cols, blocked, i, j);
    }
    if i !in blocked {
      ScanShape(rows, cols, blocked, i, 9);
    }
  }

  /** Slot q of the scan holds a different cell from every other slot. */
  lemma TargetsDiffer(rows: nat, cols: nat, i: int, q1: int, q2: int)
    requires cols > 0 && i >= 0 && 0 <= q1 < q2 < 9
    requires Target(rows, cols, i, q1).Some? && Target(rows, cols, i, q2).Some?
    ensures Target(rows, cols, i, q1) != Target(rows, cols, i, q2)
  {
    TargetDecodes(rows, cols, i, q1, Target(rows, cols, i, q1).value);
    TargetDecodes(rows, cols, i, q2, Target(rows, cols, i, q2).value);
  }

  lemma {:induction false} ScanShape(rows: nat, cols: nat, blocked: set<int>, i: int, p: int)
    requires cols > 0 && i >= 0 && 0 <= p <= 9
    ensures |ScanUpTo(rows, cols, blocked, i, p)| <= if p <= 4 then p else p - 1
    ensures Distinct(ScanUpTo(rows, cols, blocked, i, p))
    decreases p
  {
    if p > 0 {
      ScanShape(rows, cols, blocked, i, p - 1);
      var prev := ScanUpTo(rows, cols, blocked, i, p - 1);
      var t := Target(rows, cols, i, p - 1);
      if t.Some? && t.value !in blocked {
        ScanMembers(rows, cols, blocked, i, p - 1, t.value);
        if t.value in prev {
          var q :| 0 <= q < p - 1 && Target(rows, cols, i, q) == Some(t.value);
          TargetsDiffer(rows, cols, i, q, p - 1);
        }
      }
    }
  }
}
