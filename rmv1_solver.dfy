/** The first-generation solver, run in the page itself: the same search over switch
    masks and bomb combinations, with a single global `abortFlag` that ends it either
    when the list of records reaches `maxSolutions` or when the Cancel button is pressed
    while the solver yields between two masks. */
module Rmv1Solver {
  import opened Common
  import opened Combinatorics
  import opened ConditionParsers
  import opened Conditions
  import opened Placement
  import opened Search
  import opened Stars

  // ---------------------------------------------------------------------------
  // Reading the inputs
  // ---------------------------------------------------------------------------

  /** The number inputs as `parseInt(text, 10)` reads them: `None` for NaN. */
  datatype Inputs = Inputs(bombs1: Option<int>, bombs2: Option<int>, bombsNeg: Option<int>,
                           targetMin: Option<int>, targetMax: Option<int>, maxSolutions: Option<int>)

  /** `parseInt(targetMin) || -Infinity` and `parseInt(targetMax) || Infinity` as
      written: either way a typed 0 is lost along with NaN, and the missing bound is
      the infinite one on that side. */
  function ReadBoundAsWritten(x: Option<int>): (b: Option<int>)
    ensures b.Some? <==> x.Some? && x.value != 0
    ensures b.Some? ==> b.value == x.value
  {
    if x.None? || x.value == 0 then None else Some(x.value)
  }

  /** With a minimum of 0 typed in, the reading as written lets a negative sum through. */
  lemma ZeroMinIgnored()
    ensures ReadBoundAsWritten(Some(0)) == None
    ensures InTarget(-1, ReadBoundAsWritten(Some(0)), None) && -1 < 0
  {
  }

  /** With a maximum of 0 typed in, the reading as written lets a positive sum through. */
  lemma ZeroMaxIgnored()
    ensures ReadBoundAsWritten(Some(0)) == None
    ensures InTarget(1, None, ReadBoundAsWritten(Some(0))) && 1 > 0
  {
  }

  /** A bound as intended: only an input that does not parse is an infinite bound. */
  function ReadBound(x: Option<int>): (b: Option<int>)
    ensures b.None? <==> x.None?
    ensures x.Some? ==> b == Some(x.value)
  {
    if x.None? then None else Some(x.value)
  }

  /** Read as intended, a typed bound, 0 included, is the bound the sums are held to. */
  lemma ReadBoundKeepsZero(sum: int, lo: int, hi: int)
    ensures InTarget(sum, ReadBound(Some(lo)), None) <==> sum >= lo
    ensures InTarget(sum, None, ReadBound(Some(hi))) <==> sum <= hi
    ensures InTarget(sum, ReadBound(Some(0)), ReadBound(Some(0))) <==> sum == 0
  {
  }

  /** Where both readings agree: away from 0 the corrected reading changes nothing. */
  lemma ReadBoundAgreesAwayFromZero(x: Option<int>)
    requires x.None? || x.value != 0
    ensures ReadBound(x) == ReadBoundAsWritten(x)
  {
  }

  /** What one solve works with: the level, the target bounds, the cap, the star groups
      and the masks after whose yield the Cancel button was pressed. */
  datatype Config = Config(space: Space, tmin: Option<int>, tmax: Option<int>, maxSolutions: int,
                           starConditions: seq<seq<Condition>>, cancelledAfter: set<int>)
  {
    function Accepts(): Acceptance
    {
      Acceptance(starConditions, space, tmin, tmax)
    }
  }

  /** The level the solve searches: the board as edited, with the three bomb counts read
      from the inputs by `parseInt(...) || 0`. A count is the number typed in, and 0 when
      the field does not read as a number; an entered 0 is 0 either way. */
  function LevelOf(rows: nat, cols: nat, blocks: seq<int>, must: seq<int>, switches: seq<int>, inp: Inputs): (sp: Space)
    ensures sp.rows == rows && sp.cols == cols && sp.blocks == blocks && sp.must == must && sp.switches == switches
    ensures sp.b1 == (if inp.bombs1.Some? then inp.bombs1.value else 0)
    ensures sp.b2 == (if inp.bombs2.Some? then inp.bombs2.value else 0)
    ensures sp.bn == (if inp.bombsNeg.Some? then inp.bombsNeg.value else 0)
  {
    Space(rows, cols, blocks, must, switches,
          OrDefault(inp.bombs1, 0), OrDefault(inp.bombs2, 0), OrDefault(inp.bombsNeg, 0))
  }

  /** The configuration a solve reads: the cap defaults to 5000, the bounds are read as
      intended (see `ReadBoundAsWritten` for the reading as written). */
  function ReadConfig(sp: Space, inp: Inputs, stars: seq<seq<Condition>>, cancelledAfter: set<int>): (cfg: Config)
    ensures cfg.space == sp && cfg.starConditions == stars && cfg.cancelledAfter == cancelledAfter
    ensures cfg.tmin == ReadBound(inp.targetMin) && cfg.tmax == ReadBound(inp.targetMax)
    ensures cfg.maxSolutions == OrDefault(inp.maxSolutions, 5000) && cfg.maxSolutions != 0
  {
    Config(sp, ReadBound(inp.targetMin), ReadBound(inp.targetMax), OrDefault(inp.maxSolutions, 5000), stars, cancelledAfter)
  }

  /** The configuration the program as written reads: the same, with both bounds read
      by `||`. */
  function ReadConfigAsWritten(sp: Space, inp: Inputs, stars: seq<seq<Condition>>, cancelledAfter: set<int>): (cfg: Config)
    ensures cfg.space == sp && cfg.starConditions == stars && cfg.cancelledAfter == cancelledAfter
    ensures cfg.tmin == ReadBoundAsWritten(inp.targetMin) && cfg.tmax == ReadBoundAsWritten(inp.targetMax)
    ensures cfg.maxSolutions == OrDefault(inp.maxSolutions, 5000)
  {
    Config(sp, ReadBoundAsWritten(inp.targetMin), ReadBoundAsWritten(inp.targetMax), OrDefault(inp.maxSolutions, 5000),
           stars, cancelledAfter)
  }

  /** Unless a target bound of 0 is typed in, the program as written reads the
      configuration the model solves with, so every property of the modelled solve
      holds of it; with a bound of 0 the two differ exactly on that bound. */
  lemma ConfigAsWrittenAgrees(sp: Space, inp: Inputs, stars: seq<seq<Condition>>, cancelledAfter: set<int>)
    ensures inp.targetMin != Some(0) && inp.targetMax != Some(0) ==>
      ReadConfigAsWritten(sp, inp, stars, cancelledAfter) == ReadConfig(sp, inp, stars, cancelledAfter)
    ensures inp.targetMin == Some(0) ==>
      ReadConfigAsWritten(sp, inp, stars, cancelledAfter).tmin.None? && ReadConfig(sp, inp, stars, cancelledAfter).tmin == Some(0)
    ensures inp.targetMax == Some(0) ==>
      ReadConfigAsWritten(sp, inp, stars, cancelledAfter).tmax.None? && ReadConfig(sp, inp, stars, cancelledAfter).tmax == Some(0)
  {
    if inp.targetMin != Some(0) && inp.targetMax != Some(0) {
      ReadBoundAgreesAwayFromZero(inp.targetMin);
      ReadBoundAgreesAwayFromZero(inp.targetMax);
    }
  }

  // ---------------------------------------------------------------------------
  // The solver's state and its step
  // ---------------------------------------------------------------------------

  function AtLeastZero(x: int): nat
  {
    if x > 0 then x else 0
  }

  /** `c1 * c2 * c3` of a mask with m available cells, each remainder clamped at 0. */
  function MaskCount(sp: Space, m: nat): nat
  {
    NCr(m, sp.b1) * NCr(AtLeastZero(m - sp.b1), sp.b2) * NCr(AtLeastZero(m - sp.b1 - sp.b2), sp.bn)
  }

  /** `solutions`, `abortFlag` and `lastTotalCombinations`. */
  datatype State = State(solutions: seq<Record>, aborted: bool, total: nat)

  const Initial := State([], false, 0)

  /** What one event does: a mask with room for the bombs adds its count to the total;
      an on-target placement is pushed and the flag is raised once the list reaches
      `maxSolutions`; the yield at the end of a mask raises it when Cancel was pressed
      there; nothing changes once the flag is up. */
  function Apply(cfg: Config, s: State, e: Event): State
  {
    if s.aborted then s
    else match e
      case MaskOpen(v) => s.(total := s.total + MaskCount(cfg.space, |v.avail|))
      case Place(_, _, _, _) =>
        var rs := NewRecord(cfg.Accepts(), e);
        if rs == [] then s
        else s.(solutions := s.solutions + rs, aborted := |s.solutions| + 1 >= cfg.maxSolutions)
      case MaskEnd(mask) => s.(aborted := mask in cfg.cancelledAfter)
      case _ => s
  }

  /** The solver's step: nothing changes once the abort flag is up, the list only
      grows, by at most one record, and the total never falls. */
  function Step(cfg: Config): (step: (State, Event) -> State)
    ensures Halts(step, Aborted)
    ensures forall s: State, e: Event ::
      s.solutions <= step(s, e).solutions && |step(s, e).solutions| <= |s.solutions| + 1 && s.total <= step(s, e).total
  {
    (s, e) => Apply(cfg, s, e)
  }

  function Result(cfg: Config): State
  {
    Fold(Step(cfg), Initial, SearchEvents(FirstGen, cfg.space))
  }

  function Aborted(s: State): bool
  {
    s.aborted
  }

  lemma StepHalts(cfg: Config)
    ensures Halts(Step(cfg), Aborted)
  {
  }

  /** A mask without room for the bombs changes nothing. */
  lemma InfeasibleMaskFold(cfg: Config, s0: State, mask: int)
    requires !Feasible(cfg.space, ViewOf(cfg.space, mask))
    ensures Fold(Step(cfg), s0, MaskEvents(FirstGen, cfg.space, mask)) == s0
  {
    SkippedMaskFold(Step(cfg), FirstGen, cfg.space, s0, mask);
  }

  /** The events of a mask with room for the bombs, from a state without the flag: the
      count is added first, then the normal loop runs, and the yield comes last. */
  lemma FeasibleMaskFold(cfg: Config, s0: State, mask: int, s1: State, t: State)
    requires !s0.aborted && Feasible(cfg.space, ViewOf(cfg.space, mask))
    requires s1 == s0.(total := s0.total + MaskCount(cfg.space, |ViewOf(cfg.space, mask).avail|))
    requires var v := ViewOf(cfg.space, mask);
      t == Fold(Step(cfg), s1, NormalEvents(FirstGen, cfg.space, v, Combs(FirstGen, v.avail, cfg.space.b1)))
    ensures Fold(Step(cfg), s0, MaskEvents(FirstGen, cfg.space, mask)) == Apply(cfg, t, MaskEnd(mask))
  {
    var v := ViewOf(cfg.space, mask);
    assert Step(cfg)(s0, MaskOpen(v)) == s1;
    OpenMaskFold(Step(cfg), FirstGen, cfg.space, s0, mask, s1);
  }

  /** Ticks change nothing here: the first generation keeps no running count. */
  lemma TickIgnored(cfg: Config, s: State, n: nat)
    ensures Fold(Step(cfg), s, [Tick(n)]) == s
  {
    FoldSnoc(Step(cfg), s, [], Tick(n));
  }

  // ---------------------------------------------------------------------------
  // What a solve leaves behind
  // ---------------------------------------------------------------------------

  /** The list never grows past the limit, and reaching it raises the flag. */
  predicate Capped(cfg: Config, s: State)
  {
    |s.solutions| <= Limit(cfg.maxSolutions) && (|s.solutions| == Limit(cfg.maxSolutions) ==> s.aborted)
  }

  lemma {:induction false} FoldCapped(cfg: Config, s: State, evs: seq<Event>)
    requires Capped(cfg, s)
    ensures Capped(cfg, Fold(Step(cfg), s, evs))
    decreases |evs|
  {
    if evs != [] {
      FoldCapped(cfg, s, evs[..|evs| - 1]);
    }
  }

  /** From a state without the flag, the records kept are a prefix of the on-target
      records of the events, and all of them while the flag stays down. */
  lemma {:induction false} FoldRecords(cfg: Config, s: State, evs: seq<Event>)
    requires !s.aborted
    ensures var t := Fold(Step(cfg), s, evs);
      t.solutions <= s.solutions + Records(cfg.Accepts(), evs) &&
      (!t.aborted ==> t.solutions == s.solutions + Records(cfg.Accepts(), evs))
    decreases |evs|
  {
    if evs != [] {
      var pre := evs[..|evs| - 1];
      var e := evs[|evs| - 1];
      var acc := cfg.Accepts();
      FoldRecords(cfg, s, pre);
      var t := Fold(Step(cfg), s, pre);
      var all := s.solutions + Records(acc, pre);
      assert Fold(Step(cfg), s, evs) == Apply(cfg, t, e);
      RecordsSnoc(acc, s.solutions, evs);
      ApplyRecords(cfg, t, e, all);
    }
  }

  /** One event keeps the list a prefix of the records so far, and equal to them while
      the flag stays down. */
  lemma ApplyRecords(cfg: Config, t: State, e: Event, all: seq<Record>)
    requires t.solutions <= all && (!t.aborted ==> t.solutions == all)
    ensures var u := Apply(cfg, t, e); var rs := NewRecord(cfg.Accepts(), e);
      u.solutions <= all + rs && (!u.aborted ==> u.solutions == all + rs)
  {
    var rs := NewRecord(cfg.Accepts(), e);
    assert all <= all + rs;
  }

  /** Without a cancellation the flag is raised only by the cap. */
  lemma {:induction false} FoldUncancelled(cfg: Config, s: State, evs: seq<Event>)
    requires cfg.cancelledAfter == {} && Capped(cfg, s)
    requires s.aborted ==> |s.solutions| == Limit(cfg.maxSolutions)
    ensures var t := Fold(Step(cfg), s, evs);
      t.aborted ==> |t.solutions| == Limit(cfg.maxSolutions)
    decreases |evs|
  {
    if evs != [] {
      FoldUncancelled(cfg, s, evs[..|evs| - 1]);
      FoldCapped(cfg, s, evs[..|evs| - 1]);
    }
  }

  /** The solver keeps on-target records in search order, at most `Limit(maxSolutions)`
      of them; when nobody cancels, it keeps exactly the first ones up to that limit and
      raises the flag exactly when there were that many. */
  lemma ResultRecords(cfg: Config)
    ensures var all := Records(cfg.Accepts(), SearchEvents(FirstGen, cfg.space));
      Result(cfg).solutions <= all && |Result(cfg).solutions| <= Limit(cfg.maxSolutions) &&
      (!Result(cfg).aborted ==> Result(cfg).solutions == all)
    ensures var all := Records(cfg.Accepts(), SearchEvents(FirstGen, cfg.space));
      cfg.cancelledAfter == {} ==>
        Result(cfg).solutions == FirstRecords(cfg.maxSolutions, all) &&
        (Result(cfg).aborted <==> Limit(cfg.maxSolutions) <= |all|)
    ensures forall j :: 0 <= j < |Result(cfg).solutions| ==> GoodRecord(cfg.Accepts(), Result(cfg).solutions[j])
  {
    var evs := SearchEvents(FirstGen, cfg.space);
    var all := Records(cfg.Accepts(), evs);
    FoldRecords(cfg, Initial, evs);
    FoldCapped(cfg, Initial, evs);
    if cfg.cancelledAfter == {} {
      FoldUncancelled(cfg, Initial, evs);
    }
    RecordsGood(cfg.Accepts(), evs);
    assert Initial.solutions + all == all;
    KeptRecords(cfg, Result(cfg), all);
  }

  /** A final state whose list is a prefix of the records, capped, and full whenever the
      flag went up without a cancellation, keeps what `ResultRecords` says. */
  lemma KeptRecords(cfg: Config, t: State, all: seq<Record>)
    requires t.solutions <= all && (!t.aborted ==> t.solutions == all) && Capped(cfg, t)
    requires cfg.cancelledAfter == {} ==> (t.aborted ==> |t.solutions| == Limit(cfg.maxSolutions))
    requires forall j :: 0 <= j < |all| ==> GoodRecord(cfg.Accepts(), all[j])
    ensures |t.solutions| <= Limit(cfg.maxSolutions)
    ensures cfg.cancelledAfter == {} ==>
      t.solutions == FirstRecords(cfg.maxSolutions, all) && (t.aborted <==> Limit(cfg.maxSolutions) <= |all|)
    ensures forall j :: 0 <= j < |t.solutions| ==> GoodRecord(cfg.Accepts(), t.solutions[j])
  {
    if cfg.cancelledAfter == {} && t.aborted {
      assert t.solutions == all[..|t.solutions|];
    }
    assert forall j :: 0 <= j < |t.solutions| ==> t.solutions[j] == all[j];
  }

  // ---------------------------------------------------------------------------
  // lastTotalCombinations
  // ---------------------------------------------------------------------------

  /** The counts of the masks lo .. hi-1 that have room for the bombs. */
  function MaskTotals(sp: Space, lo: nat, hi: nat): nat
    decreases hi
  {
    if hi <= lo then 0
    else
      var v := ViewOf(sp, hi - 1);
      MaskTotals(sp, lo, hi - 1) + (if Feasible(sp, v) then MaskCount(sp, |v.avail|) else 0)
  }

  /** Only the mask's own opening event touches the total. */
  lemma {:induction false} FoldKeepsTotal(cfg: Config, s: State, evs: seq<Event>)
    requires forall j :: 0 <= j < |evs| ==> !evs[j].MaskOpen?
    ensures Fold(Step(cfg), s, evs).total == s.total
    decreases |evs|
  {
    if evs != [] {
      FoldKeepsTotal(cfg, s, evs[..|evs| - 1]);
    }
  }

  lemma {:induction false} NegEventsPlaceOnly(v: View, normal: seq<int>, power: seq<int>, negs: seq<seq<int>>)
    ensures forall j :: 0 <= j < |NegEvents(v, normal, power, negs)| ==> NegEvents(v, normal, power, negs)[j].Place?
    decreases |negs|
  {
    if negs != [] {
      var init := negs[..|negs| - 1];
      NegEventsPlaceOnly(v, normal, power, init);
      assert NegEvents(v, normal, power, negs) ==
             NegEvents(v, normal, power, init) + [Place(v, normal, power, negs[|negs| - 1])];
    }
  }

  lemma {:induction false} PowerEventsNoOpen(gen: Generation, sp: Space, v: View, normal: seq<int>, rem1: seq<int>, powers: seq<seq<int>>)
    ensures forall j :: 0 <= j < |PowerEvents(gen, sp, v, normal, rem1, powers)| ==>
      !PowerEvents(gen, sp, v, normal, rem1, powers)[j].MaskOpen?
    decreases |powers|
  {
    if powers != [] {
      PowerEventsNoOpen(gen, sp, v, normal, rem1, powers[..|powers| - 1]);
      var p := powers[|powers| - 1];
      NegEventsPlaceOnly(v, normal, p, Combs(gen, Without(rem1, p), sp.bn));
      assert PowerEvents(gen, sp, v, normal, rem1, powers) ==
             PowerEvents(gen, sp, v, normal, rem1, powers[..|powers| - 1]) + PowerBlock(gen, sp, v, normal, rem1, p);
    }
  }

  lemma {:induction false} NormalEventsNoOpen(gen: Generation, sp: Space, v: View, normals: seq<seq<int>>)
    ensures forall j :: 0 <= j < |NormalEvents(gen, sp, v, normals)| ==> !NormalEvents(gen, sp, v, normals)[j].MaskOpen?
    decreases |normals|
  {
    if normals != [] {
      NormalEventsNoOpen(gen, sp, v, normals[..|normals| - 1]);
      var n := normals[|normals| - 1];
      var rem1 := Without(v.avail, n);
      PowerEventsNoOpen(gen, sp, v, n, rem1, Combs(gen, rem1, sp.b2));
      assert NormalEvents(gen, sp, v, normals) ==
             NormalEvents(gen, sp, v, normals[..|normals| - 1]) + NormalBlock(gen, sp, v, n);
    }
  }

  /** A mask begun without the flag adds exactly its own count to the total. */
  lemma MaskGain(cfg: Config, s: State, mask: int)
    requires !s.aborted
    ensures var v := ViewOf(cfg.space, mask);
      Fold(Step(cfg), s, MaskEvents(FirstGen, cfg.space, mask)).total ==
      s.total + if Feasible(cfg.space, v) then MaskCount(cfg.space, |v.avail|) else 0
  {
    if Feasible(cfg.space, ViewOf(cfg.space, mask)) {
      FeasibleMaskGain(cfg, s, mask);
    } else {
      InfeasibleMaskFold(cfg, s, mask);
    }
  }

  lemma FeasibleMaskGain(cfg: Config, s: State, mask: int)
    requires !s.aborted && Feasible(cfg.space, ViewOf(cfg.space, mask))
    ensures Fold(Step(cfg), s, MaskEvents(FirstGen, cfg.space, mask)).total ==
      s.total + MaskCount(cfg.space, |ViewOf(cfg.space, mask).avail|)
  {
    var sp := cfg.space;
    var v := ViewOf(sp, mask);
    var normals := Combs(FirstGen, v.avail, sp.b1);
    var body := NormalEvents(FirstGen, sp, v, normals);
    var s1 := s.(total := s.total + MaskCount(sp, |v.avail|));
    NormalEventsNoOpen(FirstGen, sp, v, normals);
    FoldKeepsTotal(cfg, s1, body);
    var t := Fold(Step(cfg), s1, body);
    FeasibleMaskFold(cfg, s, mask, s1, t);
    MaskEndKeepsTotal(cfg, t, mask);
  }

  lemma MaskEndKeepsTotal(cfg: Config, t: State, mask: int)
    ensures Apply(cfg, t, MaskEnd(mask)).total == t.total
  {
  }

  /** After the masks 0 .. hi-1 the total is the count of some first masks, and of all
      of them when the flag is still down. */
  lemma {:induction false} FoldMaskRange(cfg: Config, hi: nat)
    ensures var t := Fold(Step(cfg), Initial, MaskRange(FirstGen, cfg.space, 0, hi));
      (exists k :: 0 <= k <= hi && t.total == MaskTotals(cfg.space, 0, k)) &&
      (!t.aborted ==> t.total == MaskTotals(cfg.space, 0, hi))
    decreases hi
  {
    var st := Step(cfg);
    var t := Fold(st, Initial, MaskRange(FirstGen, cfg.space, 0, hi));
    if hi == 0 {
      assert t == Initial;
      assert t.total == MaskTotals(cfg.space, 0, 0);
    } else {
      FoldMaskRange(cfg, hi - 1);
      var p := Fold(st, Initial, MaskRange(FirstGen, cfg.space, 0, hi - 1));
      MaskStep(st, FirstGen, cfg.space, Initial, hi - 1);
      assert t == Fold(st, p, MaskEvents(FirstGen, cfg.space, hi - 1));
      if p.aborted {
        FoldFixed(st, p, MaskEvents(FirstGen, cfg.space, hi - 1));
        var k :| 0 <= k <= hi - 1 && p.total == MaskTotals(cfg.space, 0, k);
        assert 0 <= k <= hi && t.total == MaskTotals(cfg.space, 0, k);
      } else {
        MaskRangeGain(cfg, p, hi);
        assert 0 <= hi <= hi;
      }
    }
  }

  /** One more mask, begun without the flag, adds its count to the sum so far. */
  lemma MaskRangeGain(cfg: Config, p: State, hi: nat)
    requires hi >= 1 && !p.aborted && p.total == MaskTotals(cfg.space, 0, hi - 1)
    ensures Fold(Step(cfg), p, MaskEvents(FirstGen, cfg.space, hi - 1)).total == MaskTotals(cfg.space, 0, hi)
  {
    MaskGain(cfg, p, hi - 1);
  }

  /** `lastTotalCombinations` after a solve sums the counts of some first masks, and of
      every mask with room for the bombs when the solve was neither capped nor
      cancelled. */
  lemma ResultTotal(cfg: Config)
    ensures exists k :: 0 <= k <= NumMasks(cfg.space) && Result(cfg).total == MaskTotals(cfg.space, 0, k)
    ensures !Result(cfg).aborted ==> Result(cfg).total == MaskTotals(cfg.space, 0, NumMasks(cfg.space))
  {
    FoldMaskRange(cfg, NumMasks(cfg.space));
  }

  // ---------------------------------------------------------------------------
  // The helpers of the search
  // ---------------------------------------------------------------------------

  /** `getCombinations` of this generation: nothing for a negative k or one larger
      than the array. */
  method Combinations(arr: seq<int>, k: int) returns (out: seq<seq<int>>)
    ensures out == Combs(FirstGen, arr, k)
    ensures k < 0 || k > |arr| ==> out == []
  {
    if k < 0 {
      return [];
    }
    if k > |arr| {
      CombosCount(0, |arr|, k);
      ChooseBeyond(|arr|, k);
      return [];
    }
    out := StepSubsets(arr, k);
  }

  /** `computeSum`: the score of the placement, with every one of its bombs excluded. */
  method ComputeSum(normal: seq<int>, power: seq<int>, neg: seq<int>, nb: seq<seq<int>>) returns (sum: int)
    requires Cells(normal, |nb|) && Cells(power, |nb|) && Cells(neg, |nb|)
    ensures sum == Score(normal, power, neg, nb, BombSet(normal, power, neg))
  {
    var allBombs := BombSet(normal, power, neg);
    sum := TypeScore(0, normal, 1, nb, allBombs);
    sum := TypeScore(sum, power, 2, nb, allBombs);
    sum := TypeScore(sum, neg, -1, nb, allBombs);
  }

  /** `computeSum` agrees with the value field the solver builds for the same record:
      the sum is the total of the field. */
  lemma ComputeSumIsFieldTotal(normal: seq<int>, power: seq<int>, neg: seq<int>, nb: seq<seq<int>>)
    requires MapInBoard(nb) && Cells(normal, |nb|) && Cells(power, |nb|) && Cells(neg, |nb|)
    ensures Score(normal, power, neg, nb, BombSet(normal, power, neg)) ==
            Sum(CellField(nb, BombSet(normal, power, neg), normal, power, neg))
  {
    CellFieldTotal(nb, BombSet(normal, power, neg), normal, power, neg);
  }

  // ---------------------------------------------------------------------------
  // solveHandler
  // ---------------------------------------------------------------------------

  /** The page's solver globals. */
  class Session {
    var solutions: seq<Record>
    var abortFlag: bool
    var lastTotalCombinations: nat

    function Snapshot(): State
      reads this
    {
      State(solutions, abortFlag, lastTotalCombinations)
    }

    constructor()
      ensures Snapshot() == Initial
    {
      solutions := [];
      abortFlag := false;
      lastTotalCombinations := 0;
    }

    /** `store`: score the placement and, when the sum is on target, build the value
        field, evaluate the stars and push the record; the flag goes up at the cap. */
    method Store(cfg: Config, v: View, normal: seq<int>, power: seq<int>, neg: seq<int>)
      requires !abortFlag && PlaceOk(cfg.space, v, normal, power, neg)
      modifies this
      ensures Snapshot() == Apply(cfg, old(Snapshot()), Place(v, normal, power, neg))
    {
      var finalNormal := cfg.space.must + normal;
      CellsAppend(cfg.space.must, normal, |v.nb|);
      var sum := ComputeSum(finalNormal, power, neg, v.nb);
      if InTarget(sum, cfg.tmin, cfg.tmax) {
        var bombs := BombSet(finalNormal, power, neg);
        var cv := ComputeCellValues(v.nb, bombs, finalNormal, power, neg);
        var status, stars := Evaluate(cfg.starConditions, sum, bombs, cv, v);
        solutions := solutions + [Record(finalNormal, power, neg, sum, stars, status, v.blockedList)];
        if |solutions| >= cfg.maxSolutions {
          abortFlag := true;
        }
      }
    }

    /** The negative-bomb loop of one power combination. */
    method NegLoop(cfg: Config, v: View, normal: seq<int>, rem1: seq<int>, power: seq<int>)
      requires !abortFlag && PlaceOk(cfg.space, v, normal, power, []) && Cells(rem1, |v.nb|)
      modifies this
      ensures Snapshot() == Fold(Step(cfg), old(Snapshot()), PowerBlock(FirstGen, cfg.space, v, normal, rem1, power))
    {
      ghost var s0 := Snapshot();
      StepHalts(cfg);
      var rem2 := Without(rem1, power);
      WithoutCells(rem1, power, |v.nb|);
      ghost var tick := [Tick(NCr(|rem2|, cfg.space.bn))];
      TickIgnored(cfg, s0, NCr(|rem2|, cfg.space.bn));
      var negs := Combinations(rem2, cfg.space.bn);
      var i := 0;
      while i < |negs| && !abortFlag
        invariant 0 <= i <= |negs|
        invariant Snapshot() == Fold(Step(cfg), s0, tick + NegEvents(v, normal, power, negs[..i]))
      {
        CombsCells(FirstGen, rem2, cfg.space.bn, negs, i, |v.nb|);
        Store(cfg, v, normal, power, negs[i]);
        NegStep(Step(cfg), s0, tick, v, normal, power, negs, i);
        i := i + 1;
      }
      NegRest(Step(cfg), Aborted, s0, tick, v, normal, power, negs, i);
    }

    /** The power-bomb loop of one normal combination. */
    method PowerLoop(cfg: Config, v: View, normal: seq<int>)
      requires !abortFlag && PlaceOk(cfg.space, v, normal, [], []) && Cells(v.avail, |v.nb|)
      modifies this
      ensures Snapshot() == Fold(Step(cfg), old(Snapshot()), NormalBlock(FirstGen, cfg.space, v, normal))
    {
      ghost var s0 := Snapshot();
      StepHalts(cfg);
      var rem1 := Without(v.avail, normal);
      WithoutCells(v.avail, normal, |v.nb|);
      var powers := Combinations(rem1, cfg.space.b2);
      var i := 0;
      while i < |powers| && !abortFlag
        invariant 0 <= i <= |powers|
        invariant Snapshot() == Fold(Step(cfg), s0, PowerEvents(FirstGen, cfg.space, v, normal, rem1, powers[..i]))
      {
        CombsCells(FirstGen, rem1, cfg.space.b2, powers, i, |v.nb|);
        NegLoop(cfg, v, normal, rem1, powers[i]);
        PowerStep(Step(cfg), FirstGen, cfg.space, s0, v, normal, rem1, powers, i);
        i := i + 1;
      }
      PowerRest(Step(cfg), Aborted, FirstGen, cfg.space, s0, v, normal, rem1, powers, i);
    }

    /** The normal-bomb loop of one switch state. */
    method NormalLoop(cfg: Config, v: View)
      requires !abortFlag && PlaceOk(cfg.space, v, [], [], []) && Cells(v.avail, |v.nb|)
      modifies this
      ensures Snapshot() == Fold(Step(cfg), old(Snapshot()), NormalEvents(FirstGen, cfg.space, v, Combs(FirstGen, v.avail, cfg.space.b1)))
    {
      ghost var s1 := Snapshot();
      StepHalts(cfg);
      var sp := cfg.space;
      var normals := Combinations(v.avail, sp.b1);
      var i := 0;
      while i < |normals| && !abortFlag
        invariant 0 <= i <= |normals|
        invariant Snapshot() == Fold(Step(cfg), s1, NormalEvents(FirstGen, sp, v, normals[..i]))
      {
        CombsCells(FirstGen, v.avail, sp.b1, normals, i, |v.nb|);
        PowerLoop(cfg, v, normals[i]);
        NormalStep(Step(cfg), FirstGen, sp, s1, v, normals, i);
        i := i + 1;
      }
      NormalRest(Step(cfg), Aborted, FirstGen, sp, s1, v, normals, i);
    }

    /** One switch state: skip it when the bombs do not fit; otherwise add its count,
        run every normal combination, and yield, when a pending Cancel raises the flag. */
    method MaskBody(cfg: Config, mask: nat)
      requires !abortFlag && WellFormed(cfg.space)
      modifies this
      ensures Snapshot() == Fold(Step(cfg), old(Snapshot()), MaskEvents(FirstGen, cfg.space, mask))
    {
      ghost var s0 := Snapshot();
      var sp := cfg.space;
      var v := ComputeView(sp, mask);
      ViewInBoard(sp, mask);
      if |v.avail| < sp.b1 + sp.b2 + sp.bn {
        InfeasibleMaskFold(cfg, s0, mask);
        return;
      }
      var c1 := NCrBig(|v.avail|, sp.b1);
      var c2 := NCrBig(AtLeastZero(|v.avail| - sp.b1), sp.b2);
      var c3 := NCrBig(AtLeastZero(|v.avail| - sp.b1 - sp.b2), sp.bn);
      lastTotalCombinations := lastTotalCombinations + c1 * c2 * c3;
      ghost var s1 := Snapshot();
      assert s1 == s0.(total := s0.total + MaskCount(sp, |v.avail|));
      NormalLoop(cfg, v);
      ghost var t := Snapshot();
      if !abortFlag && mask in cfg.cancelledAfter {
        abortFlag := true;
      }
      assert Snapshot() == Apply(cfg, t, MaskEnd(mask));
      FeasibleMaskFold(cfg, s0, mask, s1, t);
    }

    /** `resetProgress`: lowers the abort flag (the rest is progress display). */
    method ResetProgress()
      modifies this
      ensures !abortFlag
      ensures solutions == old(solutions) && lastTotalCombinations == old(lastTotalCombinations)
    {
      abortFlag := false;
    }

    /** The cancel button: raises the abort flag, which the mask and combination loops
        read; a run sees it at its next yield, which `cancelledAfter` models. */
    method Cancel()
      modifies this
      ensures abortFlag
      ensures solutions == old(solutions) && lastTotalCombinations == old(lastTotalCombinations)
    {
      abortFlag := true;
    }

    /** The first generation's `getStarConditionsFromUI`: the shared gathering, which
        also raises the abort flag when a slot is blank or its parser refuses it. */
    method GetStarConditionsFromUI(slots: seq<Slot>) returns (groups: seq<seq<Condition>>)
      modifies this
      ensures groups == StarConditions(slots)
      ensures abortFlag == (old(abortFlag) || Gather(slots).None?)
      ensures solutions == old(solutions) && lastTotalCombinations == old(lastTotalCombinations)
    {
      var failed;
      groups, failed := ConditionParsers.GetStarConditionsFromUI(slots);
      if failed {
        abortFlag := true;
      }
    }

    /** `solveHandler`: reset, read the bomb counts and the other inputs, gather the star
        conditions (stopping when that raised the flag), then walk the switch masks until
        the flag is up. The board (size, blocks, must-bombs, switches) is the editor's. */
    method SolveHandler(rows: nat, cols: nat, blocks: seq<int>, must: seq<int>, switches: seq<int>,
                        inp: Inputs, slots: seq<Slot>, cancelledAfter: set<int>)
      requires WellFormed(LevelOf(rows, cols, blocks, must, switches, inp))
      modifies this
      ensures Gather(slots).None? ==> solutions == [] && abortFlag && lastTotalCombinations == 0
      ensures Gather(slots).Some? ==>
        Snapshot() == Result(ReadConfig(LevelOf(rows, cols, blocks, must, switches, inp), inp, Gather(slots).value, cancelledAfter))
    {
      solutions := [];
      abortFlag := false;
      lastTotalCombinations := 0;
      var sp := LevelOf(rows, cols, blocks, must, switches, inp);
      var stars := GetStarConditionsFromUI(slots);
      if abortFlag {
        return;
      }
      var cfg := ReadConfig(sp, inp, stars, cancelledAfter);
      ghost var s0 := Snapshot();
      StepHalts(cfg);
      var numSwitchStates := ShiftOne(|sp.switches|);
      var i: nat := 0;
      while i < numSwitchStates && !abortFlag
        invariant i <= NumMasks(sp)
        invariant Snapshot() == Fold(Step(cfg), s0, MaskRange(FirstGen, sp, 0, i))
      {
        MaskBody(cfg, i);
        MaskStep(Step(cfg), FirstGen, sp, s0, i);
        i := i + 1;
      }
      MaskRest(Step(cfg), Aborted, FirstGen, sp, s0, i, NumMasks(sp));
    }
  }
}
