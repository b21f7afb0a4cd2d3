/** The grid helpers of `RMV2/utils.js` that the other modules do not already cover:
    the symmetry transform of a set of cell ids, the exact branch of the number
    formatter, and `computeNeighbors` called without a block set. */
module Utils {
  import opened Common
  import opened Grid
  import opened Placement
  import Text
  import Conditions
  import Editor

  // ---------------------------------------------------------------------------
  // Flips of a cell id
  // ---------------------------------------------------------------------------

  /** `kind`: the three flips, and any other string, which moves nothing. */
  datatype Kind = FlipH | FlipV | FlipHV | Other

  /** The id a flip sends i to: through `idxToRC`, the row and/or column mirrored, and
      back through `rcToIdx`. */
  function Flip(kind: Kind, i: int, rows: int, cols: int): int
    requires cols > 0
  {
    var rc := IdxToRC(i, cols);
    match kind
    case FlipH => RcToIdx(rc.r, (cols - 1) - rc.c, cols)
    case FlipV => RcToIdx((rows - 1) - rc.r, rc.c, cols)
    case FlipHV => RcToIdx((rows - 1) - rc.r, (cols - 1) - rc.c, cols)
    case Other => RcToIdx(rc.r, rc.c, cols)
  }

  /** An id on the board has its row and column on the board. */
  lemma CellOfId(i: int, rows: int, cols: int)
    requires cols > 0 && 0 <= i < rows * cols
    ensures 0 <= IdxToRC(i, cols).r < rows && 0 <= IdxToRC(i, cols).c < cols
  {
    var r := i / cols;
    var m := i % cols;
    assert JsRem(i, cols) == m;
    assert i == cols * r + m && 0 <= m < cols;
    MulComm(r, cols);
    if r < 0 {
      FactorAtLeast(-1, r, cols);
      assert false;
    }
    FactorBelow(r, rows, cols);
  }

  /** A row and column on the board give an id on the board. */
  lemma IdOfCell(r: int, c: int, rows: int, cols: int)
    requires cols > 0 && 0 <= r < rows && 0 <= c < cols
    ensures 0 <= RcToIdx(r, c, cols) < rows * cols
  {
    FactorAtLeast(rows - 1, r, cols);
    FactorAtLeast(r, 0, cols);
    assert (rows - 1) * cols == rows * cols - cols;
  }

  /** Every flip keeps an id on the board and undoes itself; flipping both ways is
      flipping vertically and then horizontally; any other kind moves nothing. */
  lemma FlipFacts(kind: Kind, i: int, rows: int, cols: int)
    requires cols > 0 && 0 <= i < rows * cols
    ensures 0 <= Flip(kind, i, rows, cols) < rows * cols
    ensures Flip(kind, Flip(kind, i, rows, cols), rows, cols) == i
    ensures Flip(FlipHV, i, rows, cols) == Flip(FlipH, Flip(FlipV, i, rows, cols), rows, cols)
    ensures Flip(Other, i, rows, cols) == i
  {
    var rc := IdxToRC(i, cols);
    CellOfId(i, rows, cols);
    IdxRoundTrip(i, cols);
    var r2 := (rows - 1) - rc.r;
    var c2 := (cols - 1) - rc.c;
    IdOfCell(rc.r, c2, rows, cols);
    IdOfCell(r2, rc.c, rows, cols);
    IdOfCell(r2, c2, rows, cols);
    RcRoundTrip(rc.r, c2, cols);
    RcRoundTrip(r2, rc.c, cols);
    RcRoundTrip(r2, c2, cols);
  }

  // ---------------------------------------------------------------------------
  // transformIndices
  // ---------------------------------------------------------------------------

  /** x is the flip of one of the ids. */
  predicate Image(x: int, indices: seq<int>, kind: Kind, rows: int, cols: int)
    requires cols > 0
  {
    exists i :: i in indices && x == Flip(kind, i, rows, cols)
  }

  /** The `Set` `out` after the loop: the flipped ids in first-insertion order. */
  function Images(indices: seq<int>, kind: Kind, rows: int, cols: int): (out: seq<int>)
    requires cols > 0
    ensures Distinct(out)
    ensures forall x :: x in out <==> Image(x, indices, kind, rows, cols)
  {
    if indices == [] then []
    else
      var init := indices[..|indices| - 1];
      var last := indices[|indices| - 1];
      assert indices == init + [last];
      assert forall x :: Image(x, indices, kind, rows, cols) <==>
        Image(x, init, kind, rows, cols) || x == Flip(kind, last, rows, cols);
      Editor.Add(Images(init, kind, rows, cols), Flip(kind, last, rows, cols))
  }

  /** Numeric `sort((a, b) => a - b)` of ids without repeats. */
  function Sort(s: seq<int>): (r: seq<int>)
    requires Distinct(s)
    ensures Increasing(r) && |r| == |s|
    ensures forall x :: x in r <==> x in s
  {
    if s == [] then []
    else
      assert s == [s[0]] + s[1..];
      assert Distinct(s[1..]) by {
        forall i, j | 0 <= i < j < |s[1..]| ensures s[1..][i] != s[1..][j] {
          assert s[1..][i] == s[i + 1] && s[1..][j] == s[j + 1];
        }
      }
      assert s[0] !in s[1..] by {
        forall j | 0 <= j < |s[1..]| ensures s[1..][j] != s[0] {
          assert s[1..][j] == s[j + 1];
        }
      }
      InsertSorted(s[0], Sort(s[1..]))
  }

  function InsertSorted(x: int, s: seq<int>): (r: seq<int>)
    requires Increasing(s) && x !in s
    ensures Increasing(r) && |r| == |s| + 1
    ensures forall y :: y in r <==> y in s || y == x
  {
    if s == [] then [x]
    else if x < s[0] then [x] + s
    else
      assert s == [s[0]] + s[1..];
      var t := InsertSorted(x, s[1..]);
      assert forall j :: 0 <= j < |t| ==> t[j] in t;
      [s[0]] + t
  }

  /** `transformIndices(indices, kind)`: the flipped ids, each once, in increasing order. */
  function TransformIndices(indices: seq<int>, kind: Kind, rows: int, cols: int): (r: seq<int>)
    requires cols > 0
    ensures Increasing(r)
    ensures forall x :: x in r <==> Image(x, indices, kind, rows, cols)
  {
    Sort(Images(indices, kind, rows, cols))
  }

  /** Two increasing lists with the same elements are the same list. */
  lemma {:induction false} IncreasingUnique(a: seq<int>, b: seq<int>)
    requires Increasing(a) && Increasing(b)
    requires forall x :: x in a <==> x in b
    ensures a == b
    decreases |a|
  {
    SameEmpty(a, b);
    if a != [] {
      assert a[0] in a && b[0] in b;
      assert a[0] == b[0] by {
        var i :| 0 <= i < |a| && a[i] == b[0];
        var j :| 0 <= j < |b| && b[j] == a[0];
        assert a[0] <= a[i] && b[0] <= b[j];
      }
      forall x
        ensures x in a[1..] <==> x in b[1..]
      {
        assert x in a[1..] <==> x in a && x != a[0] by {
          assert a == [a[0]] + a[1..];
          if x in a[1..] {
            var k :| 0 <= k < |a[1..]| && a[1..][k] == x;
            assert a[k + 1] == x;
          }
        }
        assert x in b[1..] <==> x in b && x != b[0] by {
          assert b == [b[0]] + b[1..];
          if x in b[1..] {
            var k :| 0 <= k < |b[1..]| && b[1..][k] == x;
            assert b[k + 1] == x;
          }
        }
      }
      IncreasingUnique(a[1..], b[1..]);
      assert a == [a[0]] + a[1..] && b == [b[0]] + b[1..];
    }
  }

  /** Lists with the same elements are both empty or both not. */
  lemma SameEmpty(a: seq<int>, b: seq<int>)
    requires forall x :: x in a <==> x in b
    ensures a == [] <==> b == []
  {
    if |a| > 0 {
      var y := a[0];
      assert y in a;
    }
    if |b| > 0 {
      var y := b[0];
      assert y in b;
    }
  }

  /** Distinct ids on the board have distinct flips. */
  lemma FlipsDiffer(kind: Kind, i: int, j: int, rows: int, cols: int)
    requires cols > 0 && 0 <= i < rows * cols && 0 <= j < rows * cols && i != j
    ensures Flip(kind, i, rows, cols) != Flip(kind, j, rows, cols)
  {
    FlipFacts(kind, i, rows, cols);
    FlipFacts(kind, j, rows, cols);
  }

  /** For distinct ids on the board the loop adds one id per input id. */
  lemma {:induction false} ImagesLength(indices: seq<int>, kind: Kind, rows: int, cols: int)
    requires cols > 0 && Distinct(indices) && Cells(indices, rows * cols)
    ensures |Images(indices, kind, rows, cols)| == |indices|
    decreases |indices|
  {
    if indices != [] {
      var init := indices[..|indices| - 1];
      var last := indices[|indices| - 1];
      assert Distinct(init) && Cells(init, rows * cols);
      ImagesLength(init, kind, rows, cols);
      assert !Image(Flip(kind, last, rows, cols), init, kind, rows, cols) by {
        forall i | i in init
          ensures Flip(kind, last, rows, cols) != Flip(kind, i, rows, cols)
        {
          var p :| 0 <= p < |init| && init[p] == i;
          assert indices[p] == i;
          FlipsDiffer(kind, last, i, rows, cols);
        }
      }
    }
  }

  /** The transform of distinct ids on the board has as many ids as it was given. */
  lemma TransformLength(indices: seq<int>, kind: Kind, rows: int, cols: int)
    requires cols > 0 && Distinct(indices) && Cells(indices, rows * cols)
    ensures |TransformIndices(indices, kind, rows, cols)| == |indices|
  {
    ImagesLength(indices, kind, rows, cols);
  }

  /** An id is its own image under an unknown kind. */
  lemma OtherImage(x: int, indices: seq<int>, rows: int, cols: int)
    requires cols > 0 && Cells(indices, rows * cols)
    ensures Image(x, indices, Other, rows, cols) <==> x in indices
  {
    if x in indices {
      var p :| 0 <= p < |indices| && indices[p] == x;
      FlipFacts(Other, x, rows, cols);
    }
    if Image(x, indices, Other, rows, cols) {
      var i :| i in indices && x == Flip(Other, i, rows, cols);
      var p :| 0 <= p < |indices| && indices[p] == i;
      FlipFacts(Other, i, rows, cols);
    }
  }

  /** An unknown kind returns the ids sorted, and an increasing list of ids unchanged. */
  lemma TransformOther(indices: seq<int>, rows: int, cols: int)
    requires cols > 0 && Cells(indices, rows * cols)
    ensures forall x :: x in TransformIndices(indices, Other, rows, cols) <==> x in indices
    ensures Increasing(indices) ==> TransformIndices(indices, Other, rows, cols) == indices
  {
    var t := TransformIndices(indices, Other, rows, cols);
    forall x
      ensures x in t <==> x in indices
    {
      OtherImage(x, indices, rows, cols);
    }
    if Increasing(indices) {
      IncreasingUnique(t, indices);
    }
  }

  /** The image of the image is the ids themselves. */
  lemma ImageOfImage(x: int, indices: seq<int>, kind: Kind, rows: int, cols: int)
    requires cols > 0 && Cells(indices, rows * cols)
    ensures var once := TransformIndices(indices, kind, rows, cols);
      Image(x, once, kind, rows, cols) <==> x in indices
  {
    var once := TransformIndices(indices, kind, rows, cols);
    if x in indices {
      var p :| 0 <= p < |indices| && indices[p] == x;
      FlipFacts(kind, x, rows, cols);
      assert Image(Flip(kind, x, rows, cols), indices, kind, rows, cols);
      assert Flip(kind, x, rows, cols) in once;
    }
    if Image(x, once, kind, rows, cols) {
      var y :| y in once && x == Flip(kind, y, rows, cols);
      assert Image(y, indices, kind, rows, cols);
      var i :| i in indices && y == Flip(kind, i, rows, cols);
      var p :| 0 <= p < |indices| && indices[p] == i;
      FlipFacts(kind, i, rows, cols);
    }
  }

  /** Flipping the same way twice gives back the ids, sorted, as no flip does. */
  lemma TransformInvolution(indices: seq<int>, kind: Kind, rows: int, cols: int)
    requires cols > 0 && Cells(indices, rows * cols)
    ensures TransformIndices(TransformIndices(indices, kind, rows, cols), kind, rows, cols) ==
      TransformIndices(indices, Other, rows, cols)
  {
    var twice := TransformIndices(TransformIndices(indices, kind, rows, cols), kind, rows, cols);
    var sorted := TransformIndices(indices, Other, rows, cols);
    forall x
      ensures x in twice <==> x in sorted
    {
      ImageOfImage(x, indices, kind, rows, cols);
      OtherImage(x, indices, rows, cols);
    }
    IncreasingUnique(twice, sorted);
  }

  /** The flip both ways of an id is the horizontal flip of its vertical flip. */
  lemma BothWaysImage(x: int, indices: seq<int>, rows: int, cols: int)
    requires cols > 0 && Cells(indices, rows * cols)
    ensures var v := TransformIndices(indices, FlipV, rows, cols);
      Image(x, indices, FlipHV, rows, cols) <==> Image(x, v, FlipH, rows, cols)
  {
    var v := TransformIndices(indices, FlipV, rows, cols);
    if Image(x, indices, FlipHV, rows, cols) {
      var i :| i in indices && x == Flip(FlipHV, i, rows, cols);
      var p :| 0 <= p < |indices| && indices[p] == i;
      FlipFacts(FlipHV, i, rows, cols);
      assert Image(Flip(FlipV, i, rows, cols), indices, FlipV, rows, cols);
      assert Flip(FlipV, i, rows, cols) in v;
    }
    if Image(x, v, FlipH, rows, cols) {
      var y :| y in v && x == Flip(FlipH, y, rows, cols);
      assert Image(y, indices, FlipV, rows, cols);
      var i :| i in indices && y == Flip(FlipV, i, rows, cols);
      var p :| 0 <= p < |indices| && indices[p] == i;
      FlipFacts(FlipHV, i, rows, cols);
    }
  }

  /** `flipHV` is `flipV` followed by `flipH`. */
  lemma TransformBothWays(indices: seq<int>, rows: int, cols: int)
    requires cols > 0 && Cells(indices, rows * cols)
    ensures TransformIndices(indices, FlipHV, rows, cols) ==
      TransformIndices(TransformIndices(indices, FlipV, rows, cols), FlipH, rows, cols)
  {
    var hv := TransformIndices(indices, FlipHV, rows, cols);
    var vh := TransformIndices(TransformIndices(indices, FlipV, rows, cols), FlipH, rows, cols);
    forall x
      ensures x in hv <==> x in vh
    {
      BothWaysImage(x, indices, rows, cols);
    }
    IncreasingUnique(hv, vh);
  }

  /** The row and column arithmetic of one step of the loop. */
  function FlipStep(kind: Kind, i: int, rows: int, cols: int): (j: int)
    requires cols > 0
    ensures j == Flip(kind, i, rows, cols)
  {
    var rc := IdxToRC(i, cols);
    var r := if kind == FlipV || kind == FlipHV then (rows - 1) - rc.r else rc.r;
    var c := if kind == FlipH || kind == FlipHV then (cols - 1) - rc.c else rc.c;
    RcToIdx(r, c, cols)
  }

  /** One more id through the loop adds its flip to the set. */
  lemma ImagesSnoc(indices: seq<int>, k: int, kind: Kind, rows: int, cols: int)
    requires cols > 0 && 0 <= k < |indices|
    ensures Images(indices[..k + 1], kind, rows, cols) ==
      Editor.Add(Images(indices[..k], kind, rows, cols), Flip(kind, indices[k], rows, cols))
  {
    assert indices[..k + 1][..k] == indices[..k];
  }

  /** The body of the loop of `transformIndices`: through the row and column and back. */
  method FlipId(kind: Kind, i: int, rows: int, cols: int) returns (j: int)
    requires cols > 0
    ensures j == Flip(kind, i, rows, cols)
  {
    var rc := IdxToRC(i, cols);
    var r := rc.r;
    var c := rc.c;
    if kind == FlipH {
      c := (cols - 1) - c;
    } else if kind == FlipV {
      r := (rows - 1) - r;
    } else if kind == FlipHV {
      r := (rows - 1) - r;
      c := (cols - 1) - c;
    }
    assert RcToIdx(r, c, cols) == FlipStep(kind, i, rows, cols);
    j := RcToIdx(r, c, cols);
  }

  /** The loop of `transformIndices`, then the numeric sort. */
  method Transform(indices: seq<int>, kind: Kind, rows: int, cols: int) returns (sorted: seq<int>)
    requires cols > 0
    ensures sorted == TransformIndices(indices, kind, rows, cols)
  {
    var out: seq<int> := [];
    for k := 0 to |indices|
      invariant out == Images(indices[..k], kind, rows, cols)
    {
      ImagesSnoc(indices, k, kind, rows, cols);
      var j := FlipId(kind, indices[k], rows, cols);
      out := Editor.Add(out, j);
    }
    assert indices[..|indices|] == indices;
    sorted := Sort(out);
  }

  // ---------------------------------------------------------------------------
  // humanNumberBig and computeNeighbors(null)
  // ---------------------------------------------------------------------------

  /** The suffix `humanNumberBig` writes: none below a thousand, then k, M and B. */
  function Suffix(n: int): string
  {
    if n < 1000 then "" else if n < 1000000 then "k" else if n < 1000000000 then "M" else "B"
  }

  /** `humanNumberBig` below a thousand: `toString()`, the exact decimal. */
  function HumanSmall(n: int): (s: string)
    requires n < 1000
    ensures Text.Number(s) == Conditions.Int(n) && Suffix(n) == ""
  {
    Text.NumberShow(n);
    Text.Show(n)
  }

  /** `currentBlocks && currentBlocks.has(i)`: a missing block set blocks nothing. */
  function BlocksOrNone(blocks: Option<set<int>>): set<int>
  {
    if blocks.Some? then blocks.value else {}
  }

  /** `computeNeighbors(currentBlocks)` where the set may be missing. */
  method ComputeNeighborsOf(rows: nat, cols: nat, blocks: Option<set<int>>) returns (nb: array<seq<int>>)
    ensures fresh(nb) && nb[..] == NeighborMap(rows, cols, BlocksOrNone(blocks))
    ensures blocks.None? ==> nb[..] == NeighborMap(rows, cols, {})
  {
    nb := ComputeNeighbors(rows, cols, BlocksOrNone(blocks));
  }
}
