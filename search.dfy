/** The search that every solver generation performs, written once as the sequence of
    events it produces: for each switch mask, the mask's view of the board, then for
    each normal-bomb combination, each power-bomb combination and each negative-bomb
    combination one placement. The solvers differ only in what they do with each
    event, so each of them is specified as a left fold of its own step over this
    sequence. */
module Search {
  import opened Common
  import opened Combinatorics
  import opened Grid
  import opened Placement

  /** The level as the solvers receive it. */
  datatype Space = Space(rows: nat, cols: nat, blocks: seq<int>, must: seq<int>, switches: seq<int>,
                         b1: int, b2: int, bn: int)

  /** The levels the model searches: distinct must-bombs, each a cell of the board. The
      editors do not enforce this: `buildGrid` keeps the roles when the board shrinks, and
      a solve of a level with a must-bomb off the board throws a `TypeError` at its first
      neighbour lookup. That error path is outside the model. */
  predicate WellFormed(sp: Space)
  {
    Cells(sp.must, sp.rows * sp.cols) && Distinct(sp.must)
  }

  /** The generator: the LevelDesign and second-generation workers yield one empty
      combination for a negative size, the first-generation solver yields nothing. */
  datatype Generation = FirstGen | LaterGen

  function Combs(gen: Generation, arr: seq<int>, k: int): seq<seq<int>>
  {
    if gen == FirstGen && k < 0 then [] else CombinationsOf(arr, k)
  }

  /** What a switch mask leaves of the board: the blocked switches in order, the set of
      blocked cells, the neighbour map and the cells left to the player. */
  datatype View = View(mask: int, blockedList: seq<int>, blocked: set<int>, nb: seq<seq<int>>, avail: seq<int>)

  function ViewOf(sp: Space, mask: int): View
  {
    var bl := BlockedList(sp.switches, mask);
    var blocked := set x | x in sp.blocks + bl;
    View(mask, bl, blocked, NeighborMap(sp.rows, sp.cols, blocked), Avail(sp.rows * sp.cols, blocked, sp.must))
  }

  /** `for (let i = 0; i < numSwitchStates; i++)` runs `1 << switches.length` times when
      that is positive and not at all otherwise. */
  function NumMasks(sp: Space): nat
  {
    var n := ShiftOne(|sp.switches|);
    if n > 0 then n else 0
  }

  predicate Feasible(sp: Space, v: View)
  {
    |v.avail| >= sp.b1 + sp.b2 + sp.bn
  }

  datatype Event =
    | MaskStart(mask: int)
    | MaskOpen(view: View)
    | Tick(count: nat)
    | Place(view: View, normal: seq<int>, power: seq<int>, neg: seq<int>)
    | MaskEnd(mask: int)

  /** The blocks f(x) of the elements of xs, in order: the events of one loop level. */
  function FlatMap<A>(xs: seq<A>, f: A -> seq<Event>): seq<Event>
  {
    if xs == [] then [] else FlatMap(xs[..|xs| - 1], f) + f(xs[|xs| - 1])
  }

  /** One placement per negative combination. */
  function NegEvents(v: View, normal: seq<int>, power: seq<int>, negs: seq<seq<int>>): seq<Event>
  {
    FlatMap(negs, PlaceOf(v, normal, power))
  }

  function PlaceOf(v: View, normal: seq<int>, power: seq<int>): seq<int> -> seq<Event>
  {
    (neg: seq<int>) => [Place(v, normal, power, neg)]
  }

  /** One power combination: the size of its negative loop is counted, then every
      negative combination of the cells left is placed. */
  function PowerBlock(gen: Generation, sp: Space, v: View, normal: seq<int>, rem1: seq<int>, power: seq<int>): seq<Event>
  {
    var rem2 := Without(rem1, power);
    [Tick(NCr(|rem2|, sp.bn))] + NegEvents(v, normal, power, Combs(gen, rem2, sp.bn))
  }

  function PowerEvents(gen: Generation, sp: Space, v: View, normal: seq<int>, rem1: seq<int>, powers: seq<seq<int>>): seq<Event>
  {
    FlatMap(powers, PowerBlocks(gen, sp, v, normal, rem1))
  }

  function PowerBlocks(gen: Generation, sp: Space, v: View, normal: seq<int>, rem1: seq<int>): seq<int> -> seq<Event>
  {
    (power: seq<int>) => PowerBlock(gen, sp, v, normal, rem1, power)
  }

  function NormalBlock(gen: Generation, sp: Space, v: View, normal: seq<int>): seq<Event>
  {
    var rem1 := Without(v.avail, normal);
    PowerEvents(gen, sp, v, normal, rem1, Combs(gen, rem1, sp.b2))
  }

  function NormalEvents(gen: Generation, sp: Space, v: View, normals: seq<seq<int>>): seq<Event>
  {
    FlatMap(normals, NormalBlocks(gen, sp, v))
  }

  function NormalBlocks(gen: Generation, sp: Space, v: View): seq<int> -> seq<Event>
  {
    (normal: seq<int>) => NormalBlock(gen, sp, v, normal)
  }

  /** One switch mask: a mask without room for all the player's bombs is skipped. */
  function MaskEvents(gen: Generation, sp: Space, mask: int): seq<Event>
  {
    var v := ViewOf(sp, mask);
    [MaskStart(mask)] +
    if !Feasible(sp, v) then []
    else [MaskOpen(v)] + NormalEvents(gen, sp, v, Combs(gen, v.avail, sp.b1)) + [MaskEnd(mask)]
  }

  /** The masks lo .. hi-1. */
  function MaskRange(gen: Generation, sp: Space, lo: nat, hi: nat): seq<Event>
  {
    Concat(MasksOf(gen, sp), lo, hi)
  }

  function MasksOf(gen: Generation, sp: Space): nat -> seq<Event>
  {
    (m: nat) => MaskEvents(gen, sp, m)
  }

  /** The lists f(lo), ..., f(hi - 1) one after the other. */
  function Concat<T>(f: nat -> seq<T>, lo: nat, hi: nat): seq<T>
    decreases hi
  {
    if hi <= lo then [] else Concat(f, lo, hi - 1) + f(hi - 1)
  }

  lemma {:induction false} ConcatSplit<T>(f: nat -> seq<T>, lo: nat, mid: nat, hi: nat)
    requires lo <= mid <= hi
    ensures Concat(f, lo, hi) == Concat(f, lo, mid) + Concat(f, mid, hi)
    decreases hi
  {
    if hi > mid {
      ConcatSplit(f, lo, mid, hi - 1);
    }
  }

  /** What holds of every element of every list holds of every element of them all. */
  lemma {:induction false} ConcatAll<T>(f: nat -> seq<T>, P: T -> bool, lo: nat, hi: nat)
    requires forall m, j :: lo <= m < hi && 0 <= j < |f(m)| ==> P(f(m)[j])
    ensures forall j :: 0 <= j < |Concat(f, lo, hi)| ==> P(Concat(f, lo, hi)[j])
    decreases hi
  {
    if hi > lo {
      ConcatAll(f, P, lo, hi - 1);
      var a, b := Concat(f, lo, hi - 1), f(hi - 1);
      forall j | 0 <= j < |a + b|
        ensures P((a + b)[j])
      {
        if j >= |a| {
          assert (a + b)[j] == b[j - |a|];
        }
      }
    }
  }

  /** The mask range one mask longer. */
  lemma MaskRangeSnoc(gen: Generation, sp: Space, lo: nat, hi: nat)
    requires lo < hi
    ensures MaskRange(gen, sp, lo, hi) == MaskRange(gen, sp, lo, hi - 1) + MaskEvents(gen, sp, hi - 1)
  {
    assert MasksOf(gen, sp)(hi - 1) == MaskEvents(gen, sp, hi - 1);
  }

  /** The whole search. */
  function SearchEvents(gen: Generation, sp: Space): seq<Event>
  {
    MaskRange(gen, sp, 0, NumMasks(sp))
  }

  // ---------------------------------------------------------------------------
  // Splitting the sequence where a loop stops
  // ---------------------------------------------------------------------------

  lemma {:induction false} FlatMapAppend<A>(xs: seq<A>, ys: seq<A>, f: A -> seq<Event>)
    ensures FlatMap(xs + ys, f) == FlatMap(xs, f) + FlatMap(ys, f)
    decreases |ys|
  {
    if ys == [] {
      assert xs + ys == xs;
    } else {
      var zs := xs + ys;
      assert zs[..|zs| - 1] == xs + ys[..|ys| - 1];
      FlatMapAppend(xs, ys[..|ys| - 1], f);
    }
  }

  /** The loop one element further. */
  lemma FlatMapPrefix<A>(xs: seq<A>, i: int, f: A -> seq<Event>)
    requires 0 <= i < |xs|
    ensures FlatMap(xs[..i + 1], f) == FlatMap(xs[..i], f) + f(xs[i])
  {
    assert xs[..i + 1][..i] == xs[..i];
  }

  lemma MaskRangeSplit(gen: Generation, sp: Space, lo: nat, mid: nat, hi: nat)
    requires lo <= mid <= hi
    ensures MaskRange(gen, sp, lo, hi) == MaskRange(gen, sp, lo, mid) + MaskRange(gen, sp, mid, hi)
  {
    ConcatSplit(MasksOf(gen, sp), lo, mid, hi);
  }

  // ---------------------------------------------------------------------------
  // Folding a step over the events
  // ---------------------------------------------------------------------------

  function Fold<S>(step: (S, Event) -> S, s: S, evs: seq<Event>): S
  {
    if evs == [] then s else step(Fold(step, s, evs[..|evs| - 1]), evs[|evs| - 1])
  }

  lemma {:induction false} FoldAppend<S>(step: (S, Event) -> S, s: S, a: seq<Event>, b: seq<Event>)
    ensures Fold(step, s, a + b) == Fold(step, Fold(step, s, a), b)
    decreases |b|
  {
    if b == [] {
      assert a + b == a;
    } else {
      assert (a + b)[..|a + b| - 1] == a + b[..|b| - 1];
      FoldAppend(step, s, a, b[..|b| - 1]);
    }
  }

  /** A state that no event changes, such as a stopped search, stays as it is. */
  lemma {:induction false} FoldFixed<S>(step: (S, Event) -> S, s: S, evs: seq<Event>)
    requires forall e :: step(s, e) == s
    ensures Fold(step, s, evs) == s
    decreases |evs|
  {
    if evs != [] {
      FoldFixed(step, s, evs[..|evs| - 1]);
    }
  }

  /** A property every step keeps holds after any number of steps. */
  lemma {:induction false} FoldKeeps<S>(step: (S, Event) -> S, inv: S -> bool, s: S, evs: seq<Event>)
    requires inv(s)
    requires forall t, e :: inv(t) ==> inv(step(t, e))
    ensures inv(Fold(step, s, evs))
    decreases |evs|
  {
    if evs != [] {
      FoldKeeps(step, inv, s, evs[..|evs| - 1]);
    }
  }

  // ---------------------------------------------------------------------------
  // What every placement of the search satisfies
  // ---------------------------------------------------------------------------

  predicate Within(a: seq<int>, b: seq<int>)
  {
    forall x :: x in a ==> x in b
  }

  predicate Disjoint(a: seq<int>, b: seq<int>)
  {
    forall x :: x in a ==> x !in b
  }

  /** A placement of the search: the view is the mask's own, and the three bomb lists
      are pairwise disjoint, increasing lists of cells left to the player. */
  predicate PlaceGood(sp: Space, e: Event)
  {
    e.Place? ==>
      e.view == ViewOf(sp, e.view.mask) &&
      Within(e.normal, e.view.avail) && Within(e.power, e.view.avail) && Within(e.neg, e.view.avail) &&
      Disjoint(e.normal, e.power) && Disjoint(e.normal, e.neg) && Disjoint(e.power, e.neg) &&
      Increasing(e.normal) && Increasing(e.power) && Increasing(e.neg)
  }

  predicate AllGood(sp: Space, evs: seq<Event>)
  {
    forall j :: 0 <= j < |evs| ==> PlaceGood(sp, evs[j])
  }

  lemma AllGoodAppend(sp: Space, a: seq<Event>, b: seq<Event>)
    requires AllGood(sp, a) && AllGood(sp, b)
    ensures AllGood(sp, a + b)
  {
    forall j | 0 <= j < |a + b|
      ensures PlaceGood(sp, (a + b)[j])
    {
      if j >= |a| {
        assert (a + b)[j] == b[j - |a|];
      }
    }
  }

  /** A combination takes its elements from arr, in arr's order. */
  lemma CombsWithin(gen: Generation, arr: seq<int>, k: int, c: seq<int>)
    requires c in Combs(gen, arr, k)
    ensures Within(c, arr)
    ensures Increasing(arr) ==> Increasing(c)
  {
    if k >= 0 {
      SubsetMembers(arr, k, c);
      SubsetsAreSubsequences(arr, k, c);
      var idx :| Selection(idx, 0, |arr|, k) && c == Pick(arr, idx);
      if Increasing(arr) {
        forall i, j | 0 <= i < j < |c|
          ensures c[i] < c[j]
        {
          assert idx[i] < idx[j];
        }
      }
    }
  }

  /** Dropping elements keeps an increasing list increasing. */
  lemma {:induction false} WithoutIncreasing(s: seq<int>, drop: seq<int>)
    requires Increasing(s)
    ensures Increasing(Without(s, drop))
    decreases |s|
  {
    if s != [] {
      assert Increasing(s[1..]) by {
        forall i, j | 0 <= i < j < |s[1..]|
          ensures s[1..][i] < s[1..][j]
        {
          assert s[1..][i] == s[i + 1] && s[1..][j] == s[j + 1];
        }
      }
      WithoutIncreasing(s[1..], drop);
      var w := Without(s[1..], drop);
      if s[0] !in drop {
        var r := [s[0]] + w;
        forall i, j | 0 <= i < j < |r|
          ensures r[i] < r[j]
        {
          if i == 0 {
            assert r[j] in s[1..];
            var m :| 0 <= m < |s[1..]| && s[1..][m] == r[j];
            assert s[m + 1] == r[j];
          } else {
            assert r[i] == w[i - 1] && r[j] == w[j - 1];
          }
        }
      }
    }
  }

  lemma {:induction false} NegEventsGood(sp: Space, v: View, normal: seq<int>, power: seq<int>, negs: seq<seq<int>>)
    requires v == ViewOf(sp, v.mask)
    requires Within(normal, v.avail) && Within(power, v.avail) && Disjoint(normal, power)
    requires Increasing(normal) && Increasing(power)
    requires forall g :: g in negs ==> Within(g, v.avail) && Disjoint(normal, g) && Disjoint(power, g) && Increasing(g)
    ensures AllGood(sp, NegEvents(v, normal, power, negs))
    decreases |negs|
  {
    if negs != [] {
      NegEventsGood(sp, v, normal, power, negs[..|negs| - 1]);
      assert negs[|negs| - 1] in negs;
      AllGoodAppend(sp, NegEvents(v, normal, power, negs[..|negs| - 1]), [Place(v, normal, power, negs[|negs| - 1])]);
    }
  }

  lemma {:induction false} PowerEventsGood(gen: Generation, sp: Space, v: View, normal: seq<int>, rem1: seq<int>, powers: seq<seq<int>>)
    requires v == ViewOf(sp, v.mask)
    requires Within(normal, v.avail) && rem1 == Without(v.avail, normal)
    requires Increasing(normal) && Increasing(rem1)
    requires forall p :: p in powers ==> Within(p, rem1) && Increasing(p)
    ensures AllGood(sp, PowerEvents(gen, sp, v, normal, rem1, powers))
    decreases |powers|
  {
    if powers != [] {
      PowerEventsGood(gen, sp, v, normal, rem1, powers[..|powers| - 1]);
      var p := powers[|powers| - 1];
      assert p in powers;
      var rem2 := Without(rem1, p);
      WithoutIncreasing(rem1, p);
      var negs := Combs(gen, rem2, sp.bn);
      forall g | g in negs
        ensures Within(g, v.avail) && Disjoint(normal, g) && Disjoint(p, g) && Increasing(g)
      {
        CombsWithin(gen, rem2, sp.bn, g);
      }
      NegEventsGood(sp, v, normal, p, negs);
      AllGoodAppend(sp, [Tick(NCr(|rem2|, sp.bn))], NegEvents(v, normal, p, negs));
      AllGoodAppend(sp, PowerEvents(gen, sp, v, normal, rem1, powers[..|powers| - 1]), PowerBlock(gen, sp, v, normal, rem1, p));
    }
  }

  lemma {:induction false} NormalEventsGood(gen: Generation, sp: Space, v: View, normals: seq<seq<int>>)
    requires v == ViewOf(sp, v.mask)
    requires Increasing(v.avail)
    requires forall n :: n in normals ==> Within(n, v.avail) && Increasing(n)
    ensures AllGood(sp, NormalEvents(gen, sp, v, normals))
    decreases |normals|
  {
    if normals != [] {
      NormalEventsGood(gen, sp, v, normals[..|normals| - 1]);
      var n := normals[|normals| - 1];
      assert n in normals;
      var rem1 := Without(v.avail, n);
      WithoutIncreasing(v.avail, n);
      forall p | p in Combs(gen, rem1, sp.b2)
        ensures Within(p, rem1) && Increasing(p)
      {
        CombsWithin(gen, rem1, sp.b2, p);
      }
      PowerEventsGood(gen, sp, v, n, rem1, Combs(gen, rem1, sp.b2));
      AllGoodAppend(sp, NormalEvents(gen, sp, v, normals[..|normals| - 1]), NormalBlock(gen, sp, v, n));
    }
  }

  lemma MaskEventsGood(gen: Generation, sp: Space, mask: int)
    ensures AllGood(sp, MaskEvents(gen, sp, mask))
  {
    var v := ViewOf(sp, mask);
    if Feasible(sp, v) {
      AvailExactly(sp.rows * sp.cols, v.blocked, sp.must);
      forall n | n in Combs(gen, v.avail, sp.b1)
        ensures Within(n, v.avail) && Increasing(n)
      {
        CombsWithin(gen, v.avail, sp.b1, n);
      }
      NormalEventsGood(gen, sp, v, Combs(gen, v.avail, sp.b1));
      var body := NormalEvents(gen, sp, v, Combs(gen, v.avail, sp.b1));
      AllGoodAppend(sp, [MaskOpen(v)], body);
      AllGoodAppend(sp, [MaskOpen(v)] + body, [MaskEnd(mask)]);
      AllGoodAppend(sp, [MaskStart(mask)], [MaskOpen(v)] + body + [MaskEnd(mask)]);
    }
  }

  lemma MaskRangeGood(gen: Generation, sp: Space, lo: nat, hi: nat)
    ensures AllGood(sp, MaskRange(gen, sp, lo, hi))
  {
    var good := (e: Event) => PlaceGood(sp, e);
    forall m, j | lo <= m < hi && 0 <= j < |MasksOf(gen, sp)(m)|
      ensures good(MasksOf(gen, sp)(m)[j])
    {
      MaskEventsGood(gen, sp, m);
    }
    ConcatAll(MasksOf(gen, sp), good, lo, hi);
  }

  /** Every placement the search tries uses three pairwise disjoint lists of cells that
      are in the board, not blocked in that mask and not must-bombs. */
  lemma SearchPlacements(gen: Generation, sp: Space, j: int)
    requires 0 <= j < |SearchEvents(gen, sp)| && SearchEvents(gen, sp)[j].Place?
    ensures PlaceGood(sp, SearchEvents(gen, sp)[j])
    ensures var e := SearchEvents(gen, sp)[j];
      forall x :: x in e.normal + e.power + e.neg ==>
        0 <= x < sp.rows * sp.cols && x !in e.view.blocked && x !in sp.must
  {
    MaskRangeGood(gen, sp, 0, NumMasks(sp));
    var e := SearchEvents(gen, sp)[j];
    AvailExactly(sp.rows * sp.cols, e.view.blocked, sp.must);
  }

  /** The bomb lists and the neighbour map a placement needs are inside the board. */
  predicate PlaceOk(sp: Space, v: View, normal: seq<int>, power: seq<int>, neg: seq<int>)
  {
    |v.nb| == sp.rows * sp.cols && MapInBoard(v.nb) &&
    Cells(sp.must, |v.nb|) && Cells(normal, |v.nb|) && Cells(power, |v.nb|) && Cells(neg, |v.nb|)
  }

  lemma NeighborMapInBoard(rows: nat, cols: nat, blocked: set<int>)
    ensures MapInBoard(NeighborMap(rows, cols, blocked))
  {
    var m := NeighborMap(rows, cols, blocked);
    forall i | 0 <= i < |m|
      ensures Cells(m[i], |m|)
    {
      NeighborListShape(rows, cols, blocked, i);
      assert forall j :: 0 <= j < |m[i]| ==> m[i][j] in m[i];
    }
  }

  /** Every placement of the search of a well-formed level passes the board check. */
  lemma GoodIsOk(sp: Space, e: Event)
    requires WellFormed(sp) && e.Place? && PlaceGood(sp, e)
    ensures PlaceOk(sp, e.view, e.normal, e.power, e.neg)
    ensures Disjoint(sp.must, e.normal)
  {
    var v := e.view;
    NeighborMapInBoard(sp.rows, sp.cols, v.blocked);
    AvailExactly(sp.rows * sp.cols, v.blocked, sp.must);
    forall j | 0 <= j < |e.normal|
      ensures 0 <= e.normal[j] < |v.nb|
    {
      assert e.normal[j] in e.normal;
    }
    forall j | 0 <= j < |e.power|
      ensures 0 <= e.power[j] < |v.nb|
    {
      assert e.power[j] in e.power;
    }
    forall j | 0 <= j < |e.neg|
      ensures 0 <= e.neg[j] < |v.nb|
    {
      assert e.neg[j] in e.neg;
    }
  }

  /** `new Set([...blocks, ...blockedSwitches])` as the mask loops build it. */
  method CurrentBlocks(blocks: seq<int>, blockedList: seq<int>) returns (blocked: set<int>)
    ensures blocked == set x | x in blocks + blockedList
  {
    blocked := {};
    var all := blocks + blockedList;
    for j := 0 to |all|
      invariant blocked == set x | x in all[..j]
    {
      assert all[..j + 1] == all[..j] + [all[j]];
      blocked := blocked + {all[j]};
    }
    assert all[..|all|] == all;
  }

  /** The view a mask loop computes: its blocked switches, blocked cells, neighbour map
      and available cells. */
  method ComputeView(sp: Space, mask: int) returns (v: View)
    ensures v == ViewOf(sp, mask)
  {
    var bl := BlockedSwitches(sp.switches, mask);
    var blocked := CurrentBlocks(sp.blocks, bl);
    var nbArr := ComputeNeighbors(sp.rows, sp.cols, blocked);
    var avail := AvailableCells(sp.rows * sp.cols, blocked, sp.must);
    v := View(mask, bl, blocked, nbArr[..], avail);
  }

  // ---------------------------------------------------------------------------
  // Where a solver's loops stand in the sequence
  // ---------------------------------------------------------------------------

  lemma CellsAppend(a: seq<int>, b: seq<int>, n: int)
    requires Cells(a, n) && Cells(b, n)
    ensures Cells(a + b, n)
  {
    forall j | 0 <= j < |a + b|
      ensures 0 <= (a + b)[j] < n
    {
      if j >= |a| {
        assert (a + b)[j] == b[j - |a|];
      }
    }
  }

  lemma WithoutCells(s: seq<int>, drop: seq<int>, n: int)
    requires Cells(s, n)
    ensures Cells(Without(s, drop), n)
  {
    var w := Without(s, drop);
    forall j | 0 <= j < |w|
      ensures 0 <= w[j] < n
    {
      assert w[j] in w;
      var t :| 0 <= t < |s| && s[t] == w[j];
    }
  }

  lemma WithinCells(a: seq<int>, b: seq<int>, n: int)
    requires Within(a, b) && Cells(b, n)
    ensures Cells(a, n)
  {
    forall j | 0 <= j < |a|
      ensures 0 <= a[j] < n
    {
      assert a[j] in a;
      var t :| 0 <= t < |b| && b[t] == a[j];
    }
  }

  /** A combination drawn from cells of the board is made of cells of the board. */
  lemma CombsCells(gen: Generation, arr: seq<int>, k: int, cs: seq<seq<int>>, i: int, n: int)
    requires cs == Combs(gen, arr, k) && 0 <= i < |cs| && Cells(arr, n)
    ensures Cells(cs[i], n)
  {
    assert cs[i] in cs;
    CombsWithin(gen, arr, k, cs[i]);
    WithinCells(cs[i], arr, n);
  }

  /** The view of a mask of a well-formed level stays inside the board. */
  lemma ViewInBoard(sp: Space, mask: int)
    requires WellFormed(sp)
    ensures var v := ViewOf(sp, mask);
      |v.nb| == sp.rows * sp.cols && MapInBoard(v.nb) && Cells(v.avail, |v.nb|) && Cells(sp.must, |v.nb|)
  {
    var v := ViewOf(sp, mask);
    NeighborMapInBoard(sp.rows, sp.cols, v.blocked);
    AvailExactly(sp.rows * sp.cols, v.blocked, sp.must);
    forall j | 0 <= j < |v.avail|
      ensures 0 <= v.avail[j] < |v.nb|
    {
      assert v.avail[j] in v.avail;
    }
  }

  /** A state in which the search has ended is one no event changes. */
  ghost predicate Halts<S(!new)>(step: (S, Event) -> S, stop: S -> bool)
  {
    forall t, e :: stop(t) ==> step(t, e) == t
  }

  lemma FoldSnoc<S>(step: (S, Event) -> S, s: S, a: seq<Event>, e: Event)
    ensures Fold(step, s, a + [e]) == step(Fold(step, s, a), e)
  {
    assert (a + [e])[..|a + [e]| - 1] == a;
  }

  /** Once the search has ended, no further event changes the state. */
  lemma StoppedStays<S(!new)>(step: (S, Event) -> S, stop: S -> bool, s: S, a: seq<Event>, b: seq<Event>)
    requires Halts(step, stop) && stop(Fold(step, s, a))
    ensures Fold(step, s, a + b) == Fold(step, s, a)
  {
    FoldFixed(step, Fold(step, s, a), b);
    FoldAppend(step, s, a, b);
  }

  /** A list split where the loop stopped, or after its end, folds to its first part. */
  lemma StopSplit<S(!new)>(step: (S, Event) -> S, stop: S -> bool, s: S, all: seq<Event>, done: seq<Event>, rest: seq<Event>)
    requires Halts(step, stop) && all == done + rest
    requires rest == [] || stop(Fold(step, s, done))
    ensures Fold(step, s, all) == Fold(step, s, done)
  {
    if rest == [] {
      assert all == done;
    } else {
      StoppedStays(step, stop, s, done, rest);
    }
  }

  /** Folding the loop one element further folds that element's block. */
  lemma FlatStep<S, A>(step: (S, Event) -> S, s0: S, pre: seq<Event>, xs: seq<A>, f: A -> seq<Event>, i: int)
    requires 0 <= i < |xs|
    ensures Fold(step, s0, pre + FlatMap(xs[..i + 1], f)) == Fold(step, Fold(step, s0, pre + FlatMap(xs[..i], f)), f(xs[i]))
  {
    var done := FlatMap(xs[..i], f);
    FlatMapPrefix(xs, i, f);
    assert pre + (done + f(xs[i])) == (pre + done) + f(xs[i]);
    FoldAppend(step, s0, pre + done, f(xs[i]));
  }

  /** A loop that ends after its last element or when the search ends folds to what
      it had done by then. */
  lemma FlatRest<S(!new), A>(step: (S, Event) -> S, stop: S -> bool, s0: S, pre: seq<Event>, xs: seq<A>,
                             f: A -> seq<Event>, i: int)
    requires Halts(step, stop) && 0 <= i <= |xs|
    requires i == |xs| || stop(Fold(step, s0, pre + FlatMap(xs[..i], f)))
    ensures Fold(step, s0, pre + FlatMap(xs, f)) == Fold(step, s0, pre + FlatMap(xs[..i], f))
  {
    var done, rest := FlatMap(xs[..i], f), FlatMap(xs[i..], f);
    FlatMapAppend(xs[..i], xs[i..], f);
    assert xs[..i] + xs[i..] == xs;
    assert pre + (done + rest) == (pre + done) + rest;
    if i == |xs| {
      assert xs[i..] == [];
    }
    StopSplit(step, stop, s0, pre + FlatMap(xs, f), pre + done, rest);
  }

  lemma NegStep<S>(step: (S, Event) -> S, s0: S, pre: seq<Event>, v: View, normal: seq<int>, power: seq<int>,
                   negs: seq<seq<int>>, i: int)
    requires 0 <= i < |negs|
    ensures Fold(step, s0, pre + NegEvents(v, normal, power, negs[..i + 1])) ==
            step(Fold(step, s0, pre + NegEvents(v, normal, power, negs[..i])), Place(v, normal, power, negs[i]))
  {
    var e := Place(v, normal, power, negs[i]);
    FlatStep(step, s0, pre, negs, PlaceOf(v, normal, power), i);
    assert PlaceOf(v, normal, power)(negs[i]) == [] + [e];
    FoldSnoc(step, Fold(step, s0, pre + NegEvents(v, normal, power, negs[..i])), [], e);
  }

  /** The negative loop ends after its last combination or when the search ends. */
  lemma NegRest<S(!new)>(step: (S, Event) -> S, stop: S -> bool, s0: S, pre: seq<Event>, v: View, normal: seq<int>,
                   power: seq<int>, negs: seq<seq<int>>, i: int)
    requires Halts(step, stop) && 0 <= i <= |negs|
    requires i == |negs| || stop(Fold(step, s0, pre + NegEvents(v, normal, power, negs[..i])))
    ensures Fold(step, s0, pre + NegEvents(v, normal, power, negs)) ==
            Fold(step, s0, pre + NegEvents(v, normal, power, negs[..i]))
  {
    FlatRest(step, stop, s0, pre, negs, PlaceOf(v, normal, power), i);
  }

  lemma PowerStep<S>(step: (S, Event) -> S, gen: Generation, sp: Space, s0: S, v: View, normal: seq<int>,
                     rem1: seq<int>, powers: seq<seq<int>>, i: int)
    requires 0 <= i < |powers|
    ensures Fold(step, s0, PowerEvents(gen, sp, v, normal, rem1, powers[..i + 1])) ==
            Fold(step, Fold(step, s0, PowerEvents(gen, sp, v, normal, rem1, powers[..i])),
                 PowerBlock(gen, sp, v, normal, rem1, powers[i]))
  {
    var f := PowerBlocks(gen, sp, v, normal, rem1);
    FlatStep(step, s0, [], powers, f, i);
    assert [] + FlatMap(powers[..i + 1], f) == FlatMap(powers[..i + 1], f);
    assert [] + FlatMap(powers[..i], f) == FlatMap(powers[..i], f);
  }

  /** The power loop ends after its last combination or when the search ends. */
  lemma PowerRest<S(!new)>(step: (S, Event) -> S, stop: S -> bool, gen: Generation, sp: Space, s0: S, v: View,
                     normal: seq<int>, rem1: seq<int>, powers: seq<seq<int>>, i: int)
    requires Halts(step, stop) && 0 <= i <= |powers|
    requires i == |powers| || stop(Fold(step, s0, PowerEvents(gen, sp, v, normal, rem1, powers[..i])))
    ensures Fold(step, s0, PowerEvents(gen, sp, v, normal, rem1, powers)) ==
            Fold(step, s0, PowerEvents(gen, sp, v, normal, rem1, powers[..i]))
  {
    var f := PowerBlocks(gen, sp, v, normal, rem1);
    assert [] + FlatMap(powers, f) == FlatMap(powers, f);
    assert [] + FlatMap(powers[..i], f) == FlatMap(powers[..i], f);
    FlatRest(step, stop, s0, [], powers, f, i);
  }

  lemma NormalStep<S>(step: (S, Event) -> S, gen: Generation, sp: Space, s0: S, v: View, normals: seq<seq<int>>, i: int)
    requires 0 <= i < |normals|
    ensures Fold(step, s0, NormalEvents(gen, sp, v, normals[..i + 1])) ==
            Fold(step, Fold(step, s0, NormalEvents(gen, sp, v, normals[..i])), NormalBlock(gen, sp, v, normals[i]))
  {
    var f := NormalBlocks(gen, sp, v);
    FlatStep(step, s0, [], normals, f, i);
    assert [] + FlatMap(normals[..i + 1], f) == FlatMap(normals[..i + 1], f);
    assert [] + FlatMap(normals[..i], f) == FlatMap(normals[..i], f);
  }

  /** The normal loop ends after its last combination or when the search ends. */
  lemma NormalRest<S(!new)>(step: (S, Event) -> S, stop: S -> bool, gen: Generation, sp: Space, s0: S, v: View,
                      normals: seq<seq<int>>, i: int)
    requires Halts(step, stop) && 0 <= i <= |normals|
    requires i == |normals| || stop(Fold(step, s0, NormalEvents(gen, sp, v, normals[..i])))
    ensures Fold(step, s0, NormalEvents(gen, sp, v, normals)) == Fold(step, s0, NormalEvents(gen, sp, v, normals[..i]))
  {
    var f := NormalBlocks(gen, sp, v);
    assert [] + FlatMap(normals, f) == FlatMap(normals, f);
    assert [] + FlatMap(normals[..i], f) == FlatMap(normals[..i], f);
    FlatRest(step, stop, s0, [], normals, f, i);
  }

  lemma MaskStep<S>(step: (S, Event) -> S, gen: Generation, sp: Space, s0: S, i: nat)
    ensures Fold(step, s0, MaskRange(gen, sp, 0, i + 1)) ==
            Fold(step, Fold(step, s0, MaskRange(gen, sp, 0, i)), MaskEvents(gen, sp, i))
  {
    FoldAppend(step, s0, MaskRange(gen, sp, 0, i), MaskEvents(gen, sp, i));
    MaskRangeSnoc(gen, sp, 0, i + 1);
  }

  /** The switch loop ends after its last mask or when the search ends. */
  lemma MaskRest<S(!new)>(step: (S, Event) -> S, stop: S -> bool, gen: Generation, sp: Space, s0: S, i: nat, n: nat)
    requires Halts(step, stop) && i <= n
    requires i == n || stop(Fold(step, s0, MaskRange(gen, sp, 0, i)))
    ensures Fold(step, s0, MaskRange(gen, sp, 0, n)) == Fold(step, s0, MaskRange(gen, sp, 0, i))
  {
    MaskRangeSplit(gen, sp, 0, i, n);
    StopSplit(step, stop, s0, MaskRange(gen, sp, 0, n), MaskRange(gen, sp, 0, i), MaskRange(gen, sp, i, n));
  }

  /** A step that only acts on ticks and placements. */
  ghost predicate IgnoresMarkers<S(!new)>(step: (S, Event) -> S)
  {
    forall s: S, e: Event :: !e.Tick? && !e.Place? ==> step(s, e) == s
  }

  /** The markers of a mask change nothing: a mask folds to its normal loop, or to
      nothing when the bombs do not fit. */
  lemma MaskFold<S(!new)>(step: (S, Event) -> S, gen: Generation, sp: Space, s0: S, mask: int)
    requires IgnoresMarkers(step)
    ensures var v := ViewOf(sp, mask);
      Fold(step, s0, MaskEvents(gen, sp, mask)) ==
      if Feasible(sp, v) then Fold(step, s0, NormalEvents(gen, sp, v, Combs(gen, v.avail, sp.b1)))
      else s0
  {
    var v := ViewOf(sp, mask);
    FoldSnoc(step, s0, [], MaskStart(mask));
    if Feasible(sp, v) {
      var body := NormalEvents(gen, sp, v, Combs(gen, v.avail, sp.b1));
      FoldSnoc(step, s0, [], MaskOpen(v));
      FoldSnoc(step, s0, [MaskStart(mask)], MaskOpen(v));
      FoldAppend(step, s0, [MaskStart(mask), MaskOpen(v)], body);
      FoldSnoc(step, s0, [MaskStart(mask), MaskOpen(v)] + body, MaskEnd(mask));
      assert MaskEvents(gen, sp, mask) == [MaskStart(mask), MaskOpen(v)] + body + [MaskEnd(mask)];
    } else {
      assert MaskEvents(gen, sp, mask) == [MaskStart(mask)];
    }
  }

  /** A mask without room for the bombs only starts, for a step that ignores its start. */
  lemma SkippedMaskFold<S>(step: (S, Event) -> S, gen: Generation, sp: Space, s0: S, mask: int)
    requires !Feasible(sp, ViewOf(sp, mask)) && step(s0, MaskStart(mask)) == s0
    ensures Fold(step, s0, MaskEvents(gen, sp, mask)) == s0
  {
    FoldSnoc(step, s0, [], MaskStart(mask));
    assert MaskEvents(gen, sp, mask) == [] + [MaskStart(mask)];
  }

  /** A mask with room for the bombs, for a step that ignores its start: the opening
      event, then the normal loop, then the closing event. */
  lemma OpenMaskFold<S>(step: (S, Event) -> S, gen: Generation, sp: Space, s0: S, mask: int, s1: S)
    requires Feasible(sp, ViewOf(sp, mask))
    requires step(s0, MaskStart(mask)) == s0 && step(s0, MaskOpen(ViewOf(sp, mask))) == s1
    ensures var v := ViewOf(sp, mask);
      Fold(step, s0, MaskEvents(gen, sp, mask)) ==
      step(Fold(step, s1, NormalEvents(gen, sp, v, Combs(gen, v.avail, sp.b1))), MaskEnd(mask))
  {
    var v := ViewOf(sp, mask);
    var body := NormalEvents(gen, sp, v, Combs(gen, v.avail, sp.b1));
    var head := [MaskStart(mask), MaskOpen(v)];
    FoldSnoc(step, s0, [], MaskStart(mask));
    FoldSnoc(step, s0, [MaskStart(mask)], MaskOpen(v));
    assert [MaskStart(mask)] + [MaskOpen(v)] == head;
    FoldAppend(step, s0, head, body);
    FoldSnoc(step, s0, head + body, MaskEnd(mask));
    assert MaskEvents(gen, sp, mask) == head + body + [MaskEnd(mask)];
  }

  // ---------------------------------------------------------------------------
  // Target range, estimate and progress
  // ---------------------------------------------------------------------------

  /** `tmin <= sum && sum <= tmax`, a missing bound being infinite. */
  predicate InTarget(sum: int, tmin: Option<int>, tmax: Option<int>)
  {
    (tmin.None? || tmin.value <= sum) && (tmax.None? || sum <= tmax.value)
  }

  /** `estimatedTotalCombos`: the count of placements of the first mask's free cells,
      times the number of switch states, when the bombs fit, and `fallback` otherwise. */
  function Estimate(sp: Space, fallback: int): int
  {
    var a := sp.rows * sp.cols - |sp.blocks| - |sp.must|;
    if a >= sp.b1 + sp.b2 + sp.bn
    then NCr(a, sp.b1) * NCr(a - sp.b1, sp.b2) * NCr(a - sp.b1 - sp.b2, sp.bn) * ShiftOne(|sp.switches|)
    else fallback
  }

  /** The estimate is positive whenever the bombs fit and there are fewer than 31 switches. */
  lemma EstimatePositive(sp: Space, fallback: int)
    requires sp.rows * sp.cols - |sp.blocks| - |sp.must| >= sp.b1 + sp.b2 + sp.bn >= 0
    requires sp.b1 >= 0 && sp.b2 >= 0 && sp.bn >= 0 && |sp.switches| < 31
    ensures Estimate(sp, fallback) > 0
  {
    var a := sp.rows * sp.cols - |sp.blocks| - |sp.must|;
    ChoosePositive(a, sp.b1);
    ChoosePositive(a - sp.b1, sp.b2);
    ChoosePositive(a - sp.b1 - sp.b2, sp.bn);
    ShiftOneExact(|sp.switches|);
    var c1 := NCr(a, sp.b1);
    var c2 := NCr(a - sp.b1, sp.b2);
    var c3 := NCr(a - sp.b1 - sp.b2, sp.bn);
    var c4 := ShiftOne(|sp.switches|);
    MulPositive(c1, c2);
    MulPositive(c1 * c2, c3);
    MulPositive(c1 * c2 * c3, c4);
  }

  /** With exactly 31 switches `1 << 31` wraps to -2^31, so the estimate a fitting level
      posts is negative. */
  lemma EstimateNegative(sp: Space, fallback: int)
    requires sp.rows * sp.cols - |sp.blocks| - |sp.must| >= sp.b1 + sp.b2 + sp.bn >= 0
    requires sp.b1 >= 0 && sp.b2 >= 0 && sp.bn >= 0 && |sp.switches| == 31
    ensures Estimate(sp, fallback) < 0
  {
    var a := sp.rows * sp.cols - |sp.blocks| - |sp.must|;
    ChoosePositive(a, sp.b1);
    ChoosePositive(a - sp.b1, sp.b2);
    ChoosePositive(a - sp.b1 - sp.b2, sp.bn);
    ShiftOneWraps();
    var c1 := NCr(a, sp.b1);
    var c2 := NCr(a - sp.b1, sp.b2);
    var c3 := NCr(a - sp.b1 - sp.b2, sp.bn);
    MulPositive(c1, c2);
    MulPositive(c1 * c2, c3);
    var c := c1 * c2 * c3;
    MulPositive(c, -ShiftOne(|sp.switches|));
    assert c * ShiftOne(|sp.switches|) == -(c * -ShiftOne(|sp.switches|));
  }

  method ComputeEstimate(sp: Space, fallback: int) returns (est: int)
    ensures est == Estimate(sp, fallback)
  {
    var a := sp.rows * sp.cols - |sp.blocks| - |sp.must|;
    est := fallback;
    if a >= sp.b1 + sp.b2 + sp.bn {
      var c1 := NCrBig(a, sp.b1);
      var c2 := NCrBig(a - sp.b1, sp.b2);
      var c3 := NCrBig(a - sp.b1 - sp.b2, sp.bn);
      est := c1 * c2 * c3 * ShiftOne(|sp.switches|);
    }
  }

  /** The percentage a progress message reports: `processed * 100 / estimate` (BigInt
      division), capped at 100, and 0 without a positive estimate. */
  function Progress(processed: nat, est: int): (pct: int)
    ensures 0 <= pct <= 100
    ensures est > 0 && processed * 100 < est * 100 ==> pct == processed * 100 / est
  {
    if est > 0 then (if processed * 100 / est > 100 then 100 else processed * 100 / est) else 0
  }

  /** While the work done stays within the estimate, the percentage is its floor share. */
  lemma ProgressWithinEstimate(processed: nat, est: int)
    requires est > 0 && processed <= est
    ensures Progress(processed, est) == processed * 100 / est
  {
    assert processed * 100 <= est * 100;
    assert processed * 100 / est <= 100;
  }
}
