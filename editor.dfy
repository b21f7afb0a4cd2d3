/** The level editor of both in-page generations: the four role sets a click edits
    under the current mode, and the board dimensions `buildGrid` reads. The two
    generations share this code line for line. JavaScript `Set`s keep insertion order,
    and the solvers read that order (the switch bits, the must-bombs ahead of the
    player's), so each role set is a duplicate-free sequence in insertion order. */
module Editor {
  import opened Common

  /** `set.add(x)`: appended when absent, unchanged when present. */
  function Add(s: seq<int>, x: int): (r: seq<int>)
    ensures forall y :: y in r <==> y in s || y == x
    ensures s <= r
    ensures Distinct(s) ==> Distinct(r)
  {
    if x in s then s else s + [x]
  }

  /** `set.delete(x)`: every other element keeps its place. */
  function Delete(s: seq<int>, x: int): (r: seq<int>)
    ensures forall y :: y in r <==> y in s && y != x
    ensures Distinct(s) ==> Distinct(r)
  {
    DeleteKeepsDistinct(s, x);
    Without(s, [x])
  }

  lemma {:induction false} DeleteKeepsDistinct(s: seq<int>, x: int)
    ensures Distinct(s) ==> Distinct(Without(s, [x]))
    decreases |s|
  {
    if s != [] && Distinct(s) {
      DeleteKeepsDistinct(s[1..], x);
      var w := Without(s[1..], [x]);
      assert Distinct(s[1..]) by {
        forall i, j | 0 <= i < j < |s[1..]| ensures s[1..][i] != s[1..][j] {
          assert s[1..][i] == s[i + 1] && s[1..][j] == s[j + 1];
        }
      }
      if s[0] !in [x] {
        assert s[0] !in w;
        var r := [s[0]] + w;
        forall i, j | 0 <= i < j < |r| ensures r[i] != r[j] {
          if i == 0 {
            assert r[j] == w[j - 1] && r[j] in w;
          } else {
            assert r[i] == w[i - 1] && r[j] == w[j - 1];
          }
        }
      }
    }
  }

  /** The editor modes; `Erase` is also what the final `else` does for any other mode. */
  datatype Mode = Block | Star | Switch | MustBomb | Erase

  datatype Roles = Roles(blocks: seq<int>, stars: seq<int>, switches: seq<int>, mustBombs: seq<int>)

  const NoRoles := Roles([], [], [], [])

  /** `cellClicked(i)` under a mode: each mode toggles its role at the cell, the
      star, switch and must-bomb modes leave a blocked cell alone, the must-bomb mode
      also a switch, and erase clears the cell. */
  function Click(r: Roles, mode: Mode, i: int): (c: Roles)
    ensures mode == Block ==> (i in c.blocks <==> i !in r.blocks)
    ensures mode == Star && i !in r.blocks ==> (i in c.stars <==> i !in r.stars)
    ensures mode == Switch && i !in r.blocks ==> (i in c.switches <==> i !in r.switches)
    ensures mode == MustBomb && i !in r.blocks && i !in r.switches ==> (i in c.mustBombs <==> i !in r.mustBombs)
    ensures (mode == Star || mode == Switch || mode == MustBomb) && i in r.blocks ==> c == r
    ensures mode == MustBomb && i in r.switches ==> c == r
    ensures mode == Erase ==> i !in c.blocks && i !in c.stars && i !in c.switches && i !in c.mustBombs
  {
    match mode
    case Block =>
      if i in r.blocks then r.(blocks := Delete(r.blocks, i))
      else Roles(Add(r.blocks, i), Delete(r.stars, i), Delete(r.switches, i), Delete(r.mustBombs, i))
    case Star =>
      if i in r.blocks then r
      else if i in r.stars then r.(stars := Delete(r.stars, i))
      else r.(stars := Add(r.stars, i), mustBombs := Delete(r.mustBombs, i))
    case Switch =>
      if i in r.blocks then r
      else if i in r.switches then r.(switches := Delete(r.switches, i))
      else r.(switches := Add(r.switches, i), stars := Delete(r.stars, i), mustBombs := Delete(r.mustBombs, i))
    case MustBomb =>
      if i in r.blocks || i in r.switches then r
      else if i in r.mustBombs then r.(mustBombs := Delete(r.mustBombs, i))
      else r.(mustBombs := Add(r.mustBombs, i), stars := Delete(r.stars, i))
    case Erase =>
      Roles(Delete(r.blocks, i), Delete(r.stars, i), Delete(r.switches, i), Delete(r.mustBombs, i))
  }

  predicate NoneIn(s: seq<int>, t: seq<int>)
  {
    forall x :: x in s ==> x !in t
  }

  /** What every reachable editor state satisfies: no repeated ids; a blocked cell has
      no other role; a must-bomb is neither a star nor a switch. A star may be a switch. */
  predicate Consistent(r: Roles)
  {
    Distinct(r.blocks) && Distinct(r.stars) && Distinct(r.switches) && Distinct(r.mustBombs) &&
    NoneIn(r.blocks, r.stars) && NoneIn(r.blocks, r.switches) && NoneIn(r.blocks, r.mustBombs) &&
    NoneIn(r.mustBombs, r.stars) && NoneIn(r.mustBombs, r.switches)
  }

  /** Every click keeps the editor consistent. */
  lemma ClickKeepsConsistent(r: Roles, mode: Mode, i: int)
    requires Consistent(r)
    ensures Consistent(Click(r, mode, i))
  {
  }

  /** The cells in role order other than i are untouched by a click on i. */
  lemma ClickTouchesOnlyCell(r: Roles, mode: Mode, i: int, j: int)
    requires j != i
    ensures var n := Click(r, mode, i);
      (j in n.blocks <==> j in r.blocks) && (j in n.stars <==> j in r.stars) &&
      (j in n.switches <==> j in r.switches) && (j in n.mustBombs <==> j in r.mustBombs)
  {
  }

  /** Block mode toggles i, and a newly blocked cell loses every other role. */
  lemma BlockToggles(r: Roles, i: int)
    ensures var n := Click(r, Block, i);
      (i in n.blocks <==> i !in r.blocks) &&
      (i !in r.blocks ==> i !in n.stars && i !in n.switches && i !in n.mustBombs)
  {
  }

  /** Star, switch and must-bomb modes leave a blocked cell alone; must-bomb mode also
      leaves a switch alone; otherwise each toggles its own role. */
  lemma RoleModesGuarded(r: Roles, mode: Mode, i: int)
    requires mode == Star || mode == Switch || mode == MustBomb
    ensures i in r.blocks ==> Click(r, mode, i) == r
    ensures mode == MustBomb && i in r.switches ==> Click(r, mode, i) == r
    ensures i !in r.blocks && mode == Star ==> (i in Click(r, mode, i).stars <==> i !in r.stars)
    ensures i !in r.blocks && mode == Switch ==> (i in Click(r, mode, i).switches <==> i !in r.switches)
    ensures i !in r.blocks && i !in r.switches && mode == MustBomb ==>
      (i in Click(r, mode, i).mustBombs <==> i !in r.mustBombs)
  {
  }

  /** Erase takes every role from i. */
  lemma EraseClears(r: Roles, i: int)
    ensures var n := Click(r, Erase, i);
      i !in n.blocks && i !in n.stars && i !in n.switches && i !in n.mustBombs
  {
  }

  /** A run of clicks, each under its own mode. */
  function Clicks(r: Roles, cs: seq<(Mode, int)>): Roles
  {
    if cs == [] then r else Click(Clicks(r, cs[..|cs| - 1]), cs[|cs| - 1].0, cs[|cs| - 1].1)
  }

  /** Every editor state reached from the empty board by clicks is consistent. */
  lemma {:induction false} ReachableConsistent(cs: seq<(Mode, int)>)
    ensures Consistent(Clicks(NoRoles, cs))
    decreases |cs|
  {
    if cs != [] {
      ReachableConsistent(cs[..|cs| - 1]);
      ClickKeepsConsistent(Clicks(NoRoles, cs[..|cs| - 1]), cs[|cs| - 1].0, cs[|cs| - 1].1);
    }
  }

  /** `Math.max(2, parseInt(input, 10) || 5)`. */
  function Dimension(input: Option<int>): (n: int)
    ensures n >= 2
    ensures input.None? || input.value == 0 ==> n == 5
    ensures input.Some? && input.value >= 2 ==> n == input.value
    ensures input.Some? && input.value != 0 && input.value < 2 ==> n == 2
  {
    var d := OrDefault(input, 5);
    if d > 2 then d else 2
  }

  /** The editor's state: the four role sets, the mode and the board size. */
  class Level {
    var blocks: seq<int>
    var stars: seq<int>
    var switches: seq<int>
    var mustBombs: seq<int>
    var mode: Mode
    var rows: int
    var cols: int

    function Snapshot(): Roles
      reads this
    {
      Roles(blocks, stars, switches, mustBombs)
    }

    /** The initial state: empty sets, block mode, a 5 x 5 board. */
    constructor()
      ensures Snapshot() == NoRoles && mode == Block && rows == 5 && cols == 5
    {
      blocks := [];
      stars := [];
      switches := [];
      mustBombs := [];
      mode := Block;
      rows := 5;
      cols := 5;
    }

    method CellClicked(i: int)
      modifies this
      ensures Snapshot() == Click(old(Snapshot()), old(mode), i)
      ensures mode == old(mode) && rows == old(rows) && cols == old(cols)
    {
      if mode == Block {
        if i in blocks {
          blocks := Delete(blocks, i);
        } else {
          blocks := Add(blocks, i);
          stars := Delete(stars, i);
          mustBombs := Delete(mustBombs, i);
          switches := Delete(switches, i);
        }
      } else if mode == Star {
        if i in blocks {
          return;
        }
        if i in stars {
          stars := Delete(stars, i);
        } else {
          stars := Add(stars, i);
          mustBombs := Delete(mustBombs, i);
        }
      } else if mode == Switch {
        if i in blocks {
          return;
        }
        if i in switches {
          switches := Delete(switches, i);
        } else {
          switches := Add(switches, i);
          stars := Delete(stars, i);
          mustBombs := Delete(mustBombs, i);
        }
      } else if mode == MustBomb {
        if i in blocks || i in switches {
          return;
        }
        if i in mustBombs {
          mustBombs := Delete(mustBombs, i);
        } else {
          mustBombs := Add(mustBombs, i);
          stars := Delete(stars, i);
        }
      } else {
        blocks := Delete(blocks, i);
        stars := Delete(stars, i);
        mustBombs := Delete(mustBombs, i);
        switches := Delete(switches, i);
      }
    }

    /** `buildGrid`: both dimensions at least 2, 5 for an empty, unparsable or zero
        input; the roles are kept. */
    method BuildGrid(colsInput: Option<int>, rowsInput: Option<int>)
      modifies this
      ensures cols == Dimension(colsInput) && rows == Dimension(rowsInput)
      ensures Snapshot() == old(Snapshot()) && mode == old(mode)
    {
      cols := Dimension(colsInput);
      rows := Dimension(rowsInput);
    }
  }
}
