/** The LevelDesign solver worker: the search of every generation, with two limits (a
    display cap on the stored solutions and an analysis cap that ends the search) and
    aggregate statistics over the counted placements: a score histogram, three
    heatmaps and the eight condition-intersection buckets. */
module LevelDesign {
  import opened Common
  import opened Combinatorics
  import opened Conditions
  import opened Placement
  import opened Search
  import Grid

  /** The worker's `config`. The bounds `tmin`/`tmax` are `None` for the `-Infinity` and
      `Infinity` a caller posts for an open side, so a `None` bound accepts every sum. A
      missing `maxSolutions` or `maxAnalysisSolutions` is `None` in the other sense:
      every comparison with `undefined` is false. */
  datatype Config = Config(space: Space, tmin: Option<int>, tmax: Option<int>,
                           maxSolutions: Option<int>, starConditions: seq<seq<Option<Condition>>>,
                           maxAnalysis: Option<int>)
  {
    /** `totalCells`, the size of every heatmap. */
    function TotalCells(): nat
    {
      space.rows * space.cols
    }
  }

  /** `n < limit` for a limit that may be missing. */
  predicate Below(n: int, limit: Option<int>)
  {
    limit.Some? && n < limit.value
  }

  /** How many `n < limit` tests can succeed in a row, counting from 0. */
  function CapOf(limit: Option<int>): nat
  {
    if limit.Some? && limit.value > 0 then limit.value else 0
  }

  // ---------------------------------------------------------------------------
  // checkCondition
  // ---------------------------------------------------------------------------

  /** `checkCondition`: a missing or unknown condition is false; `placeBombAt` needs every
      listed cell bombed; `cellValues` reads the field without a bomb test;
      `emptyCellsCount` counts every zero-valued non-bomb cell, blocked cells included;
      `SWITCH_OFF` asks for a blocked switch. */
  function CheckCondition(cond: Option<Condition>, sum: int, bombs: set<int>, cv: seq<int>, blocked: seq<int>): (r: bool)
    ensures cond.None? || cond.value.Unknown? ==> !r
    ensures cond.Some? && cond.value.GetScore? ==> (r <==> cond.value.value == Int(sum))
    ensures cond.Some? && cond.value.PlaceBombAt? ==>
      (r <==> forall j :: 0 <= j < |cond.value.cells| ==> cond.value.cells[j] in bombs)
    ensures cond.Some? && cond.value.AnyCellValue? ==>
      (r <==> exists c :: 0 <= c < |cv| && cond.value.value == Int(cv[c]))
    ensures cond.Some? && cond.value.SetSwitches? ==>
      (r <==> forall j :: 0 <= j < |cond.value.switchReqs| ==>
                (cond.value.switchReqs[j].state == SwitchOff <==> cond.value.switchReqs[j].id in blocked))
  {
    if cond.None? then false
    else match cond.value
      case GetScore(x) => NumIs(x, sum)
      case PlaceBombAt(cells) => AllBombed(cells, bombs)
      case AnyCellValue(x) => HasValue(cv, x)
      case CellValues(reqs) => ReqsHold(reqs, cv, {})
      case EmptyCellsCount(x) => NumIs(x, ZeroCount(cv, bombs))
      case SetSwitches(reqs) => OffMeansBlocked(reqs, blocked)
      case Unknown(_) => false
  }

  /** `cStatus[k]` for star k: the first condition of group k when the group exists and
      is not empty, false otherwise. */
  function StarMet(groups: seq<seq<Option<Condition>>>, k: nat, sum: int, bombs: set<int>, cv: seq<int>, blocked: seq<int>): bool
  {
    k < |groups| && |groups[k]| > 0 && CheckCondition(groups[k][0], sum, bombs, cv, blocked)
  }

  /** `cStatus`. It has the shape of the RMV2 worker's flags (`Stars.Status`) but reads
      each condition with LevelDesign's `checkCondition`: every `placeBombAt` cell
      bombed, `SWITCH_OFF` as blocked, zero cells counted over blocked ones too. */
  function Status(groups: seq<seq<Option<Condition>>>, sum: int, bombs: set<int>, cv: seq<int>, blocked: seq<int>): (st: seq<bool>)
    ensures |st| == 3
    ensures forall k :: 0 <= k < 3 ==> (st[k] <==> StarMet(groups, k, sum, bombs, cv, blocked))
  {
    [StarMet(groups, 0, sum, bombs, cv, blocked), StarMet(groups, 1, sum, bombs, cv, blocked),
     StarMet(groups, 2, sum, bombs, cv, blocked)]
  }

  /** Only the first three groups and only their first condition are ever read. */
  lemma StatusReadsFirstConditions(groups: seq<seq<Option<Condition>>>, other: seq<seq<Option<Condition>>>,
                                   sum: int, bombs: set<int>, cv: seq<int>, blocked: seq<int>)
    requires forall k :: 0 <= k < 3 ==>
      (k < |groups| && |groups[k]| > 0) == (k < |other| && |other[k]| > 0)
    requires forall k :: 0 <= k < 3 && k < |groups| && |groups[k]| > 0 ==> groups[k][0] == other[k][0]
    ensures Status(groups, sum, bombs, cv, blocked) == Status(other, sum, bombs, cv, blocked)
  {
  }

  // ---------------------------------------------------------------------------
  // The field of a counted placement
  // ---------------------------------------------------------------------------

  /** `cellValues` as the worker builds it: the player's normal bombs (`finalNormal`
      without the must-bombs), then the must-bombs, at +1; power bombs at +2; negative
      bombs at -1; only non-bomb neighbours receive a value. */
  function Field(nb: seq<seq<int>>, bombs: set<int>, must: seq<int>, normal: seq<int>, power: seq<int>, neg: seq<int>): (cv: seq<int>)
    requires MapInBoard(nb) && Cells(must, |nb|) && Cells(normal, |nb|) && Cells(power, |nb|) && Cells(neg, |nb|)
    ensures |cv| == |nb|
  {
    CellsAppend(must, normal, |nb|);
    var player := Without(must + normal, must);
    WithoutCells(must + normal, must, |nb|);
    AddImpact(AddImpact(AddImpact(AddImpact(Zeros(|nb|), player, nb, bombs, 1), must, nb, bombs, 1), power, nb, bombs, 2), neg, nb, bombs, -1)
  }

  lemma {:induction false} WithoutDisjoint(s: seq<int>, drop: seq<int>)
    requires forall j :: 0 <= j < |s| ==> s[j] !in drop
    ensures Without(s, drop) == s
    decreases |s|
  {
    if s != [] {
      var tail := s[1..];
      assert forall j :: 0 <= j < |tail| ==> tail[j] == s[j + 1];
      WithoutDisjoint(tail, drop);
      assert s[0] !in drop;
      assert s == [s[0]] + tail;
    }
  }

  lemma WithoutPrefix(must: seq<int>, normal: seq<int>)
    requires forall j :: 0 <= j < |normal| ==> normal[j] !in must
    ensures Without(must + normal, must) == normal
  {
    assert forall j :: 0 <= j < |must| ==> must[j] in must;
    WithoutTail(must + normal, must, must, normal);
  }

  lemma {:induction false} WithoutTail(s: seq<int>, drop: seq<int>, pre: seq<int>, normal: seq<int>)
    requires s == pre + normal
    requires forall j :: 0 <= j < |pre| ==> pre[j] in drop
    requires forall j :: 0 <= j < |normal| ==> normal[j] !in drop
    ensures Without(s, drop) == normal
    decreases |pre|
  {
    if pre == [] {
      assert s == normal;
      WithoutDisjoint(normal, drop);
    } else {
      var rest := pre[1..];
      assert forall j :: 0 <= j < |rest| ==> rest[j] == pre[j + 1];
      assert s[0] == pre[0] && s[1..] == rest + normal;
      WithoutTail(s[1..], drop, rest, normal);
    }
  }

  /** The field of a placement whose normal bombs avoid the must-bombs totals the score
      `calculateScoreImpact` computes for it, and bomb cells stay 0. */
  lemma FieldTotal(nb: seq<seq<int>>, must: seq<int>, normal: seq<int>, power: seq<int>, neg: seq<int>)
    requires MapInBoard(nb) && Cells(must, |nb|) && Cells(normal, |nb|) && Cells(power, |nb|) && Cells(neg, |nb|)
    requires forall j :: 0 <= j < |normal| ==> normal[j] !in must
    ensures Cells(must + normal, |nb|)
    ensures var bombs := BombSet(must + normal, power, neg);
      Sum(Field(nb, bombs, must, normal, power, neg)) == Score(must + normal, power, neg, nb, bombs)
    ensures var bombs := BombSet(must + normal, power, neg);
      forall c :: c in bombs && 0 <= c < |nb| ==> Field(nb, bombs, must, normal, power, neg)[c] == 0
  {
    var bombs := BombSet(must + normal, power, neg);
    CellsAppend(must, normal, |nb|);
    WithoutPrefix(must, normal);
    var z := Zeros(|nb|);
    var f1 := AddImpact(z, normal, nb, bombs, 1);
    var f2 := AddImpact(f1, must, nb, bombs, 1);
    var f3 := AddImpact(f2, power, nb, bombs, 2);
    AddImpactTotal(z, normal, nb, bombs, 1);
    AddImpactTotal(f1, must, nb, bombs, 1);
    AddImpactTotal(f2, power, nb, bombs, 2);
    AddImpactTotal(f3, neg, nb, bombs, -1);
    WeightedAppend(must, normal, nb, bombs, 1);
    forall c | c in bombs && 0 <= c < |nb|
      ensures Field(nb, bombs, must, normal, power, neg)[c] == 0
    {
      AddImpactKeepsBombs(z, normal, nb, bombs, 1, c);
      AddImpactKeepsBombs(f1, must, nb, bombs, 1, c);
      AddImpactKeepsBombs(f2, power, nb, bombs, 2, c);
      AddImpactKeepsBombs(f3, neg, nb, bombs, -1, c);
      ZerosAreZero(|nb|, c);
    }
  }

  // ---------------------------------------------------------------------------
  // The worker's state and its step
  // ---------------------------------------------------------------------------

  datatype Record = Record(normalBombs: seq<int>, powerBombs: seq<int>, negativeBombs: seq<int>,
                           sum: int, conditionStatus: seq<bool>, switchState: seq<int>)

  datatype State = State(solutions: seq<Record>, targetStats: map<int, nat>,
                         heatNormal: seq<int>, heatPower: seq<int>, heatNeg: seq<int>,
                         totalFound: nat, validCount: nat, buckets: BucketCounts,
                         processed: nat, stopped: bool)

  const Two32: int := 0x1_0000_0000

  /** `heat[x]++` on a `Uint32Array` for each x: the count wraps at 2^32 and a write
      outside the array is ignored. */
  function Bump32(h: seq<int>, xs: seq<int>): (r: seq<int>)
    ensures |r| == |h|
  {
    if xs == [] then h
    else
      var prev := Bump32(h, xs[..|xs| - 1]);
      var x := xs[|xs| - 1];
      if 0 <= x < |prev| then prev[x := (prev[x] + 1) % Two32] else prev
  }

  /** `targetStats[sum] || 0`. */
  function StatOf(m: map<int, nat>, k: int): nat
  {
    if k in m then m[k] else 0
  }

  /** `targetStats[sum] = (targetStats[sum] || 0) + 1`. */
  function BumpStat(m: map<int, nat>, k: int): map<int, nat>
  {
    m[k := StatOf(m, k) + 1]
  }

  function Initial(total: nat): State
  {
    State([], map[], Zeros(total), Zeros(total), Zeros(total), 0, 0, NoBuckets, 0, false)
  }

  /** A counted placement: statistics, heatmaps and buckets grow, the record is stored
      while the display cap allows, and the search stops once the analysis cap is
      reached. */
  function Count(cfg: Config, s: State, v: View, normal: seq<int>, power: seq<int>, neg: seq<int>, sum: int, bombs: set<int>): State
    requires PlaceOk(cfg.space, v, normal, power, neg)
  {
    var must := cfg.space.must;
    var cv := Field(v.nb, bombs, must, normal, power, neg);
    var st := Status(cfg.starConditions, sum, bombs, cv, v.blockedList);
    var rec := Record(normal, power, neg, sum, st, v.blockedList);
    var found := s.totalFound + 1;
    State(if Below(|s.solutions|, cfg.maxSolutions) then s.solutions + [rec] else s.solutions,
          BumpStat(s.targetStats, sum),
          Bump32(s.heatNormal, must + normal), Bump32(s.heatPower, power), Bump32(s.heatNeg, neg),
          found, s.validCount + 1, s.buckets.Bump(Classify(st)), s.processed,
          !Below(found, cfg.maxAnalysis))
  }

  /** The state after a counted placement, field by field. */
  lemma CountFields(cfg: Config, s: State, v: View, normal: seq<int>, power: seq<int>, neg: seq<int>, sum: int,
                    bombs: set<int>, st: seq<bool>)
    requires PlaceOk(cfg.space, v, normal, power, neg)
    requires st == Status(cfg.starConditions, sum, bombs, Field(v.nb, bombs, cfg.space.must, normal, power, neg), v.blockedList)
    ensures Count(cfg, s, v, normal, power, neg, sum, bombs) ==
      State(if Below(|s.solutions|, cfg.maxSolutions) then s.solutions + [Record(normal, power, neg, sum, st, v.blockedList)] else s.solutions,
            BumpStat(s.targetStats, sum),
            Bump32(s.heatNormal, cfg.space.must + normal), Bump32(s.heatPower, power), Bump32(s.heatNeg, neg),
            s.totalFound + 1, s.validCount + 1, s.buckets.Bump(Classify(st)), s.processed,
            !Below(s.totalFound + 1, cfg.maxAnalysis))
  {
  }

  function PlaceStep(cfg: Config, s: State, v: View, normal: seq<int>, power: seq<int>, neg: seq<int>): State
  {
    var sp := cfg.space;
    if !PlaceOk(sp, v, normal, power, neg) then s
    else
      CellsAppend(sp.must, normal, |v.nb|);
      var bombs := BombSet(sp.must + normal, power, neg);
      var sum := Score(sp.must + normal, power, neg, v.nb, bombs);
      if !InTarget(sum, cfg.tmin, cfg.tmax) then s
      else if !Below(s.totalFound, cfg.maxAnalysis) then s.(stopped := true)
      else Count(cfg, s, v, normal, power, neg, sum, bombs)
  }

  /** What one event of the search does to the worker's state; nothing changes once the
      search has stopped. */
  function Apply(cfg: Config, s: State, e: Event): State
  {
    if s.stopped then s
    else match e
      case Tick(count) => s.(processed := s.processed + count)
      case Place(v, normal, power, neg) => PlaceStep(cfg, s, v, normal, power, neg)
      case _ => s
  }

  /** The worker's step: nothing changes once it has stopped, and the mask markers
      change nothing. */
  function Step(cfg: Config): (step: (State, Event) -> State)
    ensures Halts(step, Halted) && IgnoresMarkers(step)
  {
    (s, e) => Apply(cfg, s, e)
  }

  /** The state `runSolver` reports after the whole search. */
  function Result(cfg: Config): State
  {
    Fold(Step(cfg), Initial(cfg.TotalCells()), SearchEvents(LaterGen, cfg.space))
  }

  // ---------------------------------------------------------------------------
  // The totals the worker reports agree with each other
  // ---------------------------------------------------------------------------

  /** The sum of a histogram's counts. */
  ghost function MapTotal(m: map<int, nat>): nat
    decreases m.Keys
  {
    if m.Keys == {} then 0
    else
      ElemOrEmpty(m.Keys);
      var k :| k in m.Keys;
      m[k] + MapTotal(m - {k})
  }

  lemma {:induction false} MapTotalRemove(m: map<int, nat>, k: int)
    requires k in m
    ensures MapTotal(m) == m[k] + MapTotal(m - {k})
    decreases m.Keys
  {
    var j :| j in m && MapTotal(m) == m[j] + MapTotal(m - {j});
    if j != k {
      MapTotalRemove(m - {j}, k);
      MapTotalRemove(m - {k}, j);
      assert m - {j} - {k} == m - {k} - {j};
    }
  }

  /** Adding one to an entry of the histogram adds one to its total. */
  lemma MapTotalBump(m: map<int, nat>, k: int)
    ensures MapTotal(BumpStat(m, k)) == MapTotal(m) + 1
  {
    var m2 := BumpStat(m, k);
    MapTotalRemove(m2, k);
    if k in m {
      MapTotalRemove(m, k);
      assert m2 - {k} == m - {k};
    } else {
      assert m2 - {k} == m;
    }
  }

  /** What holds of the worker's state at every point of the search:
      `validSolutionsCountBig`, `totalFound`, the histogram total and the bucket total
      agree; as many solutions are stored as were counted, up to the display cap;
      `totalFound` never exceeds the analysis cap and the search has stopped exactly
      when a count reached it; every stored record has its sum in the target range
      and three condition flags. */
  ghost predicate Consistent(cfg: Config, s: State)
  {
    Totals(s) && Caps(cfg, s) && Stored(cfg, s)
  }

  /** `validSolutionsCountBig`, `totalFound`, the histogram total and the bucket total
      agree. */
  ghost predicate Totals(s: State)
  {
    s.validCount == s.totalFound &&
    MapTotal(s.targetStats) == s.totalFound &&
    s.buckets.Total() == s.totalFound
  }

  /** As many solutions are stored as were counted, up to the display cap;
      `totalFound` never exceeds the analysis cap; the search has stopped exactly when a
      count reached it. */
  predicate Caps(cfg: Config, s: State)
  {
    |s.solutions| == Min(s.totalFound, CapOf(cfg.maxSolutions)) &&
    s.totalFound <= CapOf(cfg.maxAnalysis) &&
    (s.stopped ==> !Below(s.totalFound, cfg.maxAnalysis)) &&
    (s.totalFound > 0 && !Below(s.totalFound, cfg.maxAnalysis) ==> s.stopped)
  }

  /** Every stored record has its sum in the target range and three condition flags. */
  predicate Stored(cfg: Config, s: State)
  {
    forall r :: r in s.solutions ==> InTarget(r.sum, cfg.tmin, cfg.tmax) && |r.conditionStatus| == 3
  }

  lemma InitialConsistent(cfg: Config, total: nat)
    ensures Consistent(cfg, Initial(total))
  {
    InitialTotals(total);
    InitialCaps(cfg, total);
    InitialStored(cfg, total);
  }

  lemma InitialCaps(cfg: Config, total: nat)
    ensures Caps(cfg, Initial(total))
  {
  }

  lemma InitialStored(cfg: Config, total: nat)
    ensures Stored(cfg, Initial(total))
  {
  }

  lemma InitialTotals(total: nat)
    ensures Totals(Initial(total))
  {
    assert Initial(total).targetStats.Keys == {};
  }

  lemma CountConsistent(cfg: Config, s: State, v: View, normal: seq<int>, power: seq<int>, neg: seq<int>, sum: int, bombs: set<int>)
    requires Consistent(cfg, s) && !s.stopped
    requires PlaceOk(cfg.space, v, normal, power, neg)
    requires InTarget(sum, cfg.tmin, cfg.tmax) && Below(s.totalFound, cfg.maxAnalysis)
    ensures Consistent(cfg, Count(cfg, s, v, normal, power, neg, sum, bombs))
  {
    MapTotalBump(s.targetStats, sum);
    var t := Count(cfg, s, v, normal, power, neg, sum, bombs);
    forall r | r in t.solutions
      ensures InTarget(r.sum, cfg.tmin, cfg.tmax) && |r.conditionStatus| == 3
    {
      if r !in s.solutions {
        assert r == t.solutions[|t.solutions| - 1];
      }
    }
  }

  /** Every event keeps the worker's state consistent. */
  lemma ApplyConsistent(cfg: Config, s: State, e: Event)
    requires Consistent(cfg, s)
    ensures Consistent(cfg, Apply(cfg, s, e))
  {
    if !s.stopped && e.Place? && PlaceOk(cfg.space, e.view, e.normal, e.power, e.neg) {
      var sp := cfg.space;
      CellsAppend(sp.must, e.normal, |e.view.nb|);
      var bombs := BombSet(sp.must + e.normal, e.power, e.neg);
      var sum := Score(sp.must + e.normal, e.power, e.neg, e.view.nb, bombs);
      if InTarget(sum, cfg.tmin, cfg.tmax) && Below(s.totalFound, cfg.maxAnalysis) {
        CountConsistent(cfg, s, e.view, e.normal, e.power, e.neg, sum, bombs);
      }
    }
  }

  /** Any run of events from a consistent state ends in a consistent state. */
  lemma {:induction false} FoldConsistent(cfg: Config, s: State, evs: seq<Event>)
    requires Consistent(cfg, s)
    ensures Consistent(cfg, Fold(Step(cfg), s, evs))
    decreases |evs|
  {
    if evs != [] {
      var pre := evs[..|evs| - 1];
      FoldConsistent(cfg, s, pre);
      ApplyConsistent(cfg, Fold(Step(cfg), s, pre), evs[|evs| - 1]);
    }
  }

  /** The reported totals agree and the display and analysis caps hold. */
  lemma ResultConsistent(cfg: Config)
    ensures Consistent(cfg, Result(cfg))
  {
    var s0 := Initial(cfg.TotalCells());
    var evs := SearchEvents(LaterGen, cfg.space);
    InitialConsistent(cfg, cfg.TotalCells());
    FoldConsistent(cfg, s0, evs);
    assert Result(cfg) == Fold(Step(cfg), s0, evs);
  }

  /** Without an analysis cap nothing is ever counted or stored: `totalFound <
      undefined` is false for the first placement already. */
  lemma ResultWithoutAnalysisCap(cfg: Config)
    requires cfg.maxAnalysis.None?
    ensures Result(cfg).totalFound == 0 && Result(cfg).solutions == []
  {
    ResultConsistent(cfg);
    NoAnalysisCapCountsNothing(cfg, Result(cfg));
  }

  lemma NoAnalysisCapCountsNothing(cfg: Config, s: State)
    requires Caps(cfg, s) && cfg.maxAnalysis.None?
    ensures s.totalFound == 0 && s.solutions == []
  {
  }

  // ---------------------------------------------------------------------------
  // What the worker counts: the in-target placements of the search
  // ---------------------------------------------------------------------------

  /** The record of an event that is a placement with its sum in the target range, with
      the flags `checkCondition` gives it over the placement's field; nothing for any
      other event. */
  function NewHit(cfg: Config, e: Event): (rs: seq<Record>)
    ensures |rs| <= 1
    ensures rs != [] ==>
      && e.Place? && PlaceOk(cfg.space, e.view, e.normal, e.power, e.neg)
      && InTarget(rs[0].sum, cfg.tmin, cfg.tmax) && |rs[0].conditionStatus| == 3
      && rs[0].normalBombs == e.normal && rs[0].powerBombs == e.power && rs[0].negativeBombs == e.neg
      && rs[0].switchState == e.view.blockedList
  {
    var sp := cfg.space;
    if e.Place? && PlaceOk(sp, e.view, e.normal, e.power, e.neg) then
      CellsAppend(sp.must, e.normal, |e.view.nb|);
      var bombs := BombSet(sp.must + e.normal, e.power, e.neg);
      var sum := Score(sp.must + e.normal, e.power, e.neg, e.view.nb, bombs);
      if InTarget(sum, cfg.tmin, cfg.tmax) then
        [Record(e.normal, e.power, e.neg, sum,
                Status(cfg.starConditions, sum, bombs, Field(e.view.nb, bombs, sp.must, e.normal, e.power, e.neg), e.view.blockedList),
                e.view.blockedList)]
      else []
    else []
  }

  /** Every in-target placement of a run of events, in search order. */
  function Hits(cfg: Config, evs: seq<Event>): seq<Record>
  {
    if evs == [] then [] else Hits(cfg, evs[..|evs| - 1]) + NewHit(cfg, evs[|evs| - 1])
  }

  lemma HitsSnoc(cfg: Config, before: seq<Record>, evs: seq<Event>)
    requires evs != []
    ensures before + Hits(cfg, evs) == (before + Hits(cfg, evs[..|evs| - 1])) + NewHit(cfg, evs[|evs| - 1])
  {
    var front := Hits(cfg, evs[..|evs| - 1]);
    assert before + (front + NewHit(cfg, evs[|evs| - 1])) == (before + front) + NewHit(cfg, evs[|evs| - 1]);
  }

  /** Every hit has its sum in the target range and three condition flags. */
  lemma {:induction false} HitsInTarget(cfg: Config, evs: seq<Event>)
    ensures forall j :: 0 <= j < |Hits(cfg, evs)| ==>
      InTarget(Hits(cfg, evs)[j].sum, cfg.tmin, cfg.tmax) && |Hits(cfg, evs)[j].conditionStatus| == 3
    decreases |evs|
  {
    if evs != [] {
      HitsInTarget(cfg, evs[..|evs| - 1]);
    }
  }

  /** The histogram `targetStats` of a list of records. */
  function StatsOf(rs: seq<Record>): map<int, nat>
  {
    if rs == [] then map[] else BumpStat(StatsOf(rs[..|rs| - 1]), rs[|rs| - 1].sum)
  }

  /** The sums of a list of records. */
  function SumsOf(rs: seq<Record>): (sums: seq<int>)
    ensures |sums| == |rs| && forall j :: 0 <= j < |rs| ==> sums[j] == rs[j].sum
  {
    if rs == [] then [] else SumsOf(rs[..|rs| - 1]) + [rs[|rs| - 1].sum]
  }

  /** `targetStats[s]` is the number of records whose sum is s. */
  lemma {:induction false} StatsCountSums(rs: seq<Record>, k: int)
    ensures StatOf(StatsOf(rs), k) == multiset(SumsOf(rs))[k]
    decreases |rs|
  {
    if rs != [] {
      var front := rs[..|rs| - 1];
      StatsCountSums(front, k);
      assert SumsOf(rs) == SumsOf(front) + [rs[|rs| - 1].sum];
      assert multiset(SumsOf(rs)) == multiset(SumsOf(front)) + multiset{rs[|rs| - 1].sum};
    }
  }

  /** The cells `for (let x of finalNormal)` visits over a list of records: the
      must-bombs followed by each record's normal bombs. */
  function NormalCells(must: seq<int>, rs: seq<Record>): seq<int>
  {
    if rs == [] then [] else NormalCells(must, rs[..|rs| - 1]) + (must + rs[|rs| - 1].normalBombs)
  }

  function PowerCells(rs: seq<Record>): seq<int>
  {
    if rs == [] then [] else PowerCells(rs[..|rs| - 1]) + rs[|rs| - 1].powerBombs
  }

  function NegCells(rs: seq<Record>): seq<int>
  {
    if rs == [] then [] else NegCells(rs[..|rs| - 1]) + rs[|rs| - 1].negativeBombs
  }

  lemma {:induction false} Bump32Append(h: seq<int>, xs: seq<int>, ys: seq<int>)
    ensures Bump32(h, xs + ys) == Bump32(Bump32(h, xs), ys)
    decreases |ys|
  {
    if ys == [] {
      assert xs + ys == xs;
    } else {
      var pre := ys[..|ys| - 1];
      Bump32Append(h, xs, pre);
      assert (xs + ys)[..|xs + ys| - 1] == xs + pre;
    }
  }

  lemma ModNext(a: int)
    ensures (a % Two32 + 1) % Two32 == (a + 1) % Two32
  {
  }

  /** A heatmap cell holds its start value plus the number of times it was listed,
      modulo 2^32. */
  lemma {:induction false} Bump32Count(h: seq<int>, xs: seq<int>, x: int)
    requires 0 <= x < |h| && 0 <= h[x] < Two32
    ensures Bump32(h, xs)[x] == (h[x] + multiset(xs)[x]) % Two32
    decreases |xs|
  {
    if xs != [] {
      var pre := xs[..|xs| - 1];
      var last := xs[|xs| - 1];
      Bump32Count(h, pre, x);
      assert xs == pre + [last];
      assert multiset(xs) == multiset(pre) + multiset{last};
      if last == x {
        ModNext(h[x] + multiset(pre)[x]);
      }
    }
  }

  /** The eight condition-intersection buckets of a list of records. */
  function BucketsOf(rs: seq<Record>): BucketCounts
  {
    if rs == [] then NoBuckets
    else
      var b := BucketsOf(rs[..|rs| - 1]);
      var st := rs[|rs| - 1].conditionStatus;
      if |st| == 3 then b.Bump(Classify(st)) else b
  }

  /** The buckets of the records with three flags, in order. */
  function ClassesOf(rs: seq<Record>): seq<Bucket>
  {
    if rs == [] then []
    else
      var st := rs[|rs| - 1].conditionStatus;
      ClassesOf(rs[..|rs| - 1]) + (if |st| == 3 then [Classify(st)] else [])
  }

  /** Each bucket counts the records whose flags fall into it. */
  lemma {:induction false} BucketsCountClasses(rs: seq<Record>, b: Bucket)
    ensures BucketsOf(rs).Get(b) == multiset(ClassesOf(rs))[b]
    decreases |rs|
  {
    if rs != [] {
      var front := rs[..|rs| - 1];
      BucketsCountClasses(front, b);
      var st := rs[|rs| - 1].conditionStatus;
      if |st| == 3 {
        assert ClassesOf(rs) == ClassesOf(front) + [Classify(st)];
        assert multiset(ClassesOf(rs)) == multiset(ClassesOf(front)) + multiset{Classify(st)};
      }
    }
  }

  /** The aggregates of a state are those of the records counted so far. */
  ghost predicate Aggregates(cfg: Config, s: State, counted: seq<Record>, total: nat)
  {
    s.targetStats == StatsOf(counted) &&
    s.heatNormal == Bump32(Zeros(total), NormalCells(cfg.space.must, counted)) &&
    s.heatPower == Bump32(Zeros(total), PowerCells(counted)) &&
    s.heatNeg == Bump32(Zeros(total), NegCells(counted)) &&
    s.buckets == BucketsOf(counted)
  }

  /** How a state of the search relates to the hits seen so far: while running it has
      counted all of them, once stopped it has counted exactly the analysis cap; the
      stored solutions are the first hits, and the aggregates are those of the counted
      ones. */
  ghost predicate Tracks(cfg: Config, s: State, hits: seq<Record>, total: nat)
  {
    s.totalFound <= |hits| &&
    (!s.stopped ==> s.totalFound == |hits|) &&
    (s.stopped ==> s.totalFound == CapOf(cfg.maxAnalysis)) &&
    |s.solutions| <= |hits| && s.solutions == hits[..|s.solutions|] &&
    Aggregates(cfg, s, hits[..s.totalFound], total)
  }

  /** A counted placement adds its record to the aggregates. */
  lemma CountAggregates(cfg: Config, s: State, v: View, normal: seq<int>, power: seq<int>, neg: seq<int>, sum: int,
                        bombs: set<int>, counted: seq<Record>, rec: Record, total: nat)
    requires PlaceOk(cfg.space, v, normal, power, neg) && Aggregates(cfg, s, counted, total)
    requires rec == Record(normal, power, neg, sum,
      Status(cfg.starConditions, sum, bombs, Field(v.nb, bombs, cfg.space.must, normal, power, neg), v.blockedList), v.blockedList)
    ensures Aggregates(cfg, Count(cfg, s, v, normal, power, neg, sum, bombs), counted + [rec], total)
  {
    var rs := counted + [rec];
    assert rs[..|rs| - 1] == counted;
    CountFields(cfg, s, v, normal, power, neg, sum, bombs, rec.conditionStatus);
    Bump32Append(Zeros(total), NormalCells(cfg.space.must, counted), cfg.space.must + normal);
    Bump32Append(Zeros(total), PowerCells(counted), power);
    Bump32Append(Zeros(total), NegCells(counted), neg);
  }

  /** After the search has stopped, later hits change nothing that is tracked. */
  lemma TracksStopped(cfg: Config, s: State, hits: seq<Record>, more: seq<Record>, total: nat)
    requires s.stopped && Tracks(cfg, s, hits, total)
    ensures Tracks(cfg, s, hits + more, total)
  {
    var h2 := hits + more;
    assert h2[..|s.solutions|] == hits[..|s.solutions|];
    assert h2[..s.totalFound] == hits[..s.totalFound];
  }

  /** A progress tick, or a placement that is not a hit, changes nothing tracked. */
  lemma TracksQuiet(cfg: Config, s: State, t: State, hits: seq<Record>, total: nat)
    requires Tracks(cfg, s, hits, total) && t == s.(processed := t.processed)
    ensures Tracks(cfg, t, hits, total)
  {
  }

  /** A hit found with the analysis cap already reached ends the search: that only
      happens before anything was counted, for a cap that admits nothing. */
  lemma TracksHalt(cfg: Config, s: State, hits: seq<Record>, rec: Record, total: nat)
    requires Caps(cfg, s) && Tracks(cfg, s, hits, total) && !s.stopped && !Below(s.totalFound, cfg.maxAnalysis)
    ensures Tracks(cfg, s.(stopped := true), hits + [rec], total)
  {
    var h2 := hits + [rec];
    assert s.totalFound == 0 && |s.solutions| == 0;
    assert h2[..0] == hits[..0];
  }

  /** A counted hit: the tracked state moves on by exactly that record. */
  lemma TracksCount(cfg: Config, s: State, v: View, normal: seq<int>, power: seq<int>, neg: seq<int>, sum: int,
                    bombs: set<int>, hits: seq<Record>, rec: Record, total: nat)
    requires PlaceOk(cfg.space, v, normal, power, neg)
    requires Caps(cfg, s) && Tracks(cfg, s, hits, total) && !s.stopped && Below(s.totalFound, cfg.maxAnalysis)
    requires rec == Record(normal, power, neg, sum,
      Status(cfg.starConditions, sum, bombs, Field(v.nb, bombs, cfg.space.must, normal, power, neg), v.blockedList), v.blockedList)
    ensures Tracks(cfg, Count(cfg, s, v, normal, power, neg, sum, bombs), hits + [rec], total)
  {
    assert hits[..s.totalFound] == hits;
    CountAggregates(cfg, s, v, normal, power, neg, sum, bombs, hits, rec, total);
    CountFields(cfg, s, v, normal, power, neg, sum, bombs, rec.conditionStatus);
    TracksNext(cfg, s, Count(cfg, s, v, normal, power, neg, sum, bombs), hits, rec, total);
  }

  /** The counters and the stored list after one more hit is counted. */
  lemma TracksNext(cfg: Config, s: State, t: State, hits: seq<Record>, rec: Record, total: nat)
    requires Caps(cfg, s) && Tracks(cfg, s, hits, total) && !s.stopped && Below(s.totalFound, cfg.maxAnalysis)
    requires t.totalFound == s.totalFound + 1 && t.stopped == !Below(t.totalFound, cfg.maxAnalysis)
    requires t.solutions == if Below(|s.solutions|, cfg.maxSolutions) then s.solutions + [rec] else s.solutions
    requires Aggregates(cfg, t, hits + [rec], total)
    ensures Tracks(cfg, t, hits + [rec], total)
  {
    var h2 := hits + [rec];
    assert h2[..t.totalFound] == h2;
    assert h2[..|s.solutions|] == hits[..|s.solutions|];
  }

  /** One event keeps the worker's state tracking the hits, extended by the event's. */
  lemma ApplyTracks(cfg: Config, s: State, e: Event, hits: seq<Record>, total: nat)
    requires Caps(cfg, s) && Tracks(cfg, s, hits, total)
    ensures Tracks(cfg, Apply(cfg, s, e), hits + NewHit(cfg, e), total)
  {
    if s.stopped {
      TracksStopped(cfg, s, hits, NewHit(cfg, e), total);
    } else if NewHit(cfg, e) == [] {
      assert hits + NewHit(cfg, e) == hits;
      TracksQuiet(cfg, s, Apply(cfg, s, e), hits, total);
    } else {
      var sp := cfg.space;
      var v, normal, power, neg := e.view, e.normal, e.power, e.neg;
      CellsAppend(sp.must, normal, |v.nb|);
      var bombs := BombSet(sp.must + normal, power, neg);
      var sum := Score(sp.must + normal, power, neg, v.nb, bombs);
      var rec := NewHit(cfg, e)[0];
      if Below(s.totalFound, cfg.maxAnalysis) {
        TracksCount(cfg, s, v, normal, power, neg, sum, bombs, hits, rec, total);
      } else {
        TracksHalt(cfg, s, hits, rec, total);
      }
    }
  }

  /** Each event keeps the caps. */
  lemma ApplyCaps(cfg: Config, s: State, e: Event)
    requires Caps(cfg, s)
    ensures Caps(cfg, Apply(cfg, s, e))
  {
  }

  /** Any run of events from the empty state tracks the run's hits. */
  lemma {:induction false} FoldTracks(cfg: Config, evs: seq<Event>, total: nat)
    ensures Caps(cfg, Fold(Step(cfg), Initial(total), evs))
    ensures Tracks(cfg, Fold(Step(cfg), Initial(total), evs), Hits(cfg, evs), total)
    decreases |evs|
  {
    if evs == [] {
      InitialCaps(cfg, total);
      var none: seq<Record> := [];
      assert none[..0] == none;
    } else {
      var pre := evs[..|evs| - 1];
      var e := evs[|evs| - 1];
      FoldTracks(cfg, pre, total);
      var t := Fold(Step(cfg), Initial(total), pre);
      ApplyTracks(cfg, t, e, Hits(cfg, pre), total);
      ApplyCaps(cfg, t, e);
      assert Fold(Step(cfg), Initial(total), evs) == Apply(cfg, t, e);
      assert Hits(cfg, evs) == Hits(cfg, pre) + NewHit(cfg, e);
    }
  }

  /** What a state reports about a list of hits: `totalFound` is their number, up to
      `maxAnalysisSolutions`; the stored solutions are the first of them, up to
      `maxSolutions`; the histogram, the three heatmaps and the buckets are those of the
      counted ones. */
  ghost predicate Reports(cfg: Config, s: State, hits: seq<Record>, total: nat)
  {
    var n := Min(|hits|, CapOf(cfg.maxAnalysis));
    && s.totalFound == n
    && s.solutions == hits[..Min(n, CapOf(cfg.maxSolutions))]
    && Aggregates(cfg, s, hits[..n], total)
  }

  lemma TracksReports(cfg: Config, s: State, hits: seq<Record>, total: nat)
    requires Caps(cfg, s) && Tracks(cfg, s, hits, total)
    ensures Reports(cfg, s, hits, total)
  {
  }

  lemma FoldReports(cfg: Config, evs: seq<Event>, total: nat)
    ensures Reports(cfg, Fold(Step(cfg), Initial(total), evs), Hits(cfg, evs), total)
  {
    FoldTracks(cfg, evs, total);
    TracksReports(cfg, Fold(Step(cfg), Initial(total), evs), Hits(cfg, evs), total);
  }

  /** What `done` reports is what the in-target placements of the whole search give:
      their number up to `maxAnalysisSolutions` as `totalFound`, the first of them up
      to `maxSolutions` as solutions, and the statistics of the counted ones. */
  lemma ResultCountsHits(cfg: Config)
    ensures Reports(cfg, Result(cfg), Hits(cfg, SearchEvents(LaterGen, cfg.space)), cfg.TotalCells())
  {
    FoldReports(cfg, SearchEvents(LaterGen, cfg.space), cfg.TotalCells());
  }

  /** The reported histogram, heatmaps and buckets count the first `totalFound`
      in-target placements: `targetStats[k]` how many of them score k, a heatmap cell
      how often it is bombed among them (modulo 2^32, as a `Uint32Array` holds it), a
      bucket how many have flags in it. */
  lemma ResultStatistics(cfg: Config, k: int, x: int, b: Bucket)
    requires 0 <= x < cfg.TotalCells()
    ensures var hits := Hits(cfg, SearchEvents(LaterGen, cfg.space));
      var counted := hits[..Min(|hits|, CapOf(cfg.maxAnalysis))];
      && StatOf(Result(cfg).targetStats, k) == multiset(SumsOf(counted))[k]
      && |Result(cfg).heatNormal| == |Result(cfg).heatPower| == |Result(cfg).heatNeg| == cfg.TotalCells()
      && Result(cfg).heatNormal[x] == multiset(NormalCells(cfg.space.must, counted))[x] % Two32
      && Result(cfg).heatPower[x] == multiset(PowerCells(counted))[x] % Two32
      && Result(cfg).heatNeg[x] == multiset(NegCells(counted))[x] % Two32
      && Result(cfg).buckets.Get(b) == multiset(ClassesOf(counted))[b]
  {
    var total := cfg.TotalCells();
    var hits := Hits(cfg, SearchEvents(LaterGen, cfg.space));
    var counted := hits[..Min(|hits|, CapOf(cfg.maxAnalysis))];
    ResultCountsHits(cfg);
    AggregatesCount(cfg, Result(cfg), counted, total, k, x, b);
  }

  /** The aggregates of some records count them. */
  lemma AggregatesCount(cfg: Config, s: State, counted: seq<Record>, total: nat, k: int, x: int, b: Bucket)
    requires Aggregates(cfg, s, counted, total) && 0 <= x < total
    ensures StatOf(s.targetStats, k) == multiset(SumsOf(counted))[k]
    ensures |s.heatNormal| == |s.heatPower| == |s.heatNeg| == total
    ensures s.heatNormal[x] == multiset(NormalCells(cfg.space.must, counted))[x] % Two32
    ensures s.heatPower[x] == multiset(PowerCells(counted))[x] % Two32
    ensures s.heatNeg[x] == multiset(NegCells(counted))[x] % Two32
    ensures s.buckets.Get(b) == multiset(ClassesOf(counted))[b]
  {
    StatsCountSums(counted, k);
    HeatCount(total, NormalCells(cfg.space.must, counted), x);
    HeatCount(total, PowerCells(counted), x);
    HeatCount(total, NegCells(counted), x);
    BucketsCountClasses(counted, b);
  }

  /** A heatmap that starts at zero counts how often each cell is listed. */
  lemma HeatCount(total: nat, xs: seq<int>, x: int)
    requires 0 <= x < total
    ensures |Bump32(Zeros(total), xs)| == total
    ensures Bump32(Zeros(total), xs)[x] == multiset(xs)[x] % Two32
  {
    ZerosAreZero(total, x);
    Bump32Count(Zeros(total), xs, x);
  }

  // ---------------------------------------------------------------------------
  // Folding the search
  // ---------------------------------------------------------------------------

  function Halted(s: State): bool
  {
    s.stopped
  }

  lemma StepHalts(cfg: Config)
    ensures Halts(Step(cfg), Halted)
  {
  }

  lemma StepIgnoresMarkers(cfg: Config)
    ensures IgnoresMarkers(Step(cfg))
  {
  }

  // ---------------------------------------------------------------------------
  // runSolver
  // ---------------------------------------------------------------------------

  /** The locals of one `runSolver` call: the stored solutions, the histogram, the
      three `Uint32Array` heatmaps, the counters, and whether `break outerLoop` has
      been taken. */
  class Run {
    const cfg: Config
    var solutions: seq<Record>
    var targetStats: map<int, nat>
    const heatNormal: array<int>
    const heatPower: array<int>
    const heatNeg: array<int>
    var totalFound: nat
    var validCount: nat
    var buckets: BucketCounts
    var processed: nat
    var stopped: bool

    /** Three separate heatmaps, one slot per cell of the board. */
    predicate Valid()
    {
      heatNormal != heatPower && heatNormal != heatNeg && heatPower != heatNeg &&
      heatNormal.Length == heatPower.Length == heatNeg.Length == cfg.TotalCells()
    }

    function Snapshot(): State
      reads this, heatNormal, heatPower, heatNeg
    {
      State(solutions, targetStats, heatNormal[..], heatPower[..], heatNeg[..],
            totalFound, validCount, buckets, processed, stopped)
    }

    constructor(cfg: Config)
      ensures this.cfg == cfg && Valid() && Snapshot() == Initial(cfg.TotalCells())
      ensures fresh(heatNormal) && fresh(heatPower) && fresh(heatNeg)
    {
      var total := cfg.TotalCells();
      var hn := ZeroArray(total);
      var hp := ZeroArray(total);
      var hg := ZeroArray(total);
      this.cfg := cfg;
      solutions := [];
      targetStats := map[];
      heatNormal := hn;
      heatPower := hp;
      heatNeg := hg;
      totalFound := 0;
      validCount := 0;
      buckets := NoBuckets;
      processed := 0;
      stopped := false;
    }

    /** `new Uint32Array(n)`. */
    static method ZeroArray(n: nat) returns (a: array<int>)
      ensures fresh(a) && a[..] == Zeros(n)
    {
      a := new int[n](_ => 0);
      ZerosAreAllZero(n);
    }

    /** `for (let x of xs) heat[x]++` on a `Uint32Array`. */
    static method BumpAll(a: array<int>, xs: seq<int>)
      modifies a
      ensures a[..] == Bump32(old(a[..]), xs)
    {
      for i := 0 to |xs|
        invariant a[..] == Bump32(old(a[..]), xs[..i])
      {
        assert xs[..i + 1][..i] == xs[..i];
        var x := xs[i];
        if 0 <= x < a.Length {
          a[x] := (a[x] + 1) % Two32;
        }
      }
      assert xs[..|xs|] == xs;
    }

    /** The three heatmap loops of a counted placement. */
    method BumpHeat(finalNormal: seq<int>, power: seq<int>, neg: seq<int>)
      requires Valid()
      modifies heatNormal, heatPower, heatNeg
      ensures heatNormal[..] == Bump32(old(heatNormal[..]), finalNormal)
      ensures heatPower[..] == Bump32(old(heatPower[..]), power)
      ensures heatNeg[..] == Bump32(old(heatNeg[..]), neg)
    {
      BumpAll(heatNormal, finalNormal);
      BumpAll(heatPower, power);
      BumpAll(heatNeg, neg);
    }

    /** The `cellValues` map of a counted placement, built by the four `addVal` calls. */
    static method CellValues(nb: seq<seq<int>>, bombs: set<int>, must: seq<int>, normal: seq<int>, power: seq<int>, neg: seq<int>)
      returns (cv: seq<int>)
      requires MapInBoard(nb) && Cells(must, |nb|) && Cells(normal, |nb|) && Cells(power, |nb|) && Cells(neg, |nb|)
      ensures cv == Field(nb, bombs, must, normal, power, neg)
    {
      var finalNormal := must + normal;
      CellsAppend(must, normal, |nb|);
      var player := Without(finalNormal, must);
      WithoutCells(finalNormal, must, |nb|);
      cv := Zeros(|nb|);
      cv := AddVal(cv, player, 1, nb, bombs);
      cv := AddVal(cv, must, 1, nb, bombs);
      cv := AddVal(cv, power, 2, nb, bombs);
      cv := AddVal(cv, neg, -1, nb, bombs);
    }

    /** The three star flags of a counted placement, over its `cellValues` map. */
    static method PlacementStatus(cfg: Config, v: View, normal: seq<int>, power: seq<int>, neg: seq<int>, sum: int,
                                  bombs: set<int>) returns (st: seq<bool>)
      requires PlaceOk(cfg.space, v, normal, power, neg)
      ensures st == Status(cfg.starConditions, sum, bombs, Field(v.nb, bombs, cfg.space.must, normal, power, neg), v.blockedList)
    {
      var cv := CellValues(v.nb, bombs, cfg.space.must, normal, power, neg);
      st := Status(cfg.starConditions, sum, bombs, cv, v.blockedList);
    }

    /** A counted placement: counters, histogram, heatmaps, buckets, the stored record
        while the display cap allows, and the stop at the analysis cap. */
    method CountPlacement(v: View, normal: seq<int>, power: seq<int>, neg: seq<int>, sum: int, bombs: set<int>)
      requires Valid() && PlaceOk(cfg.space, v, normal, power, neg)
      modifies this, heatNormal, heatPower, heatNeg
      ensures Snapshot() == Count(cfg, old(Snapshot()), v, normal, power, neg, sum, bombs)
    {
      ghost var s0 := Snapshot();
      var must := cfg.space.must;
      var st := PlacementStatus(cfg, v, normal, power, neg, sum, bombs);
      var sols := solutions;
      if Below(|solutions|, cfg.maxSolutions) {
        sols := solutions + [Record(normal, power, neg, sum, st, v.blockedList)];
      }
      var found := totalFound + 1;
      CountFields(cfg, s0, v, normal, power, neg, sum, bombs, st);
      var stats := BumpStat(targetStats, sum);
      var valid := validCount + 1;
      var counts := buckets.Bump(Classify(st));
      var stop := !Below(found, cfg.maxAnalysis);
      BumpHeat(must + normal, power, neg);
      solutions, targetStats, totalFound, validCount, buckets, stopped := sols, stats, found, valid, counts, stop;
    }

    /** The body of the negative-bomb loop: score the placement, and when the sum is on
        target either count it or stop the search at the analysis cap. */
    method ProcessPlacement(v: View, normal: seq<int>, power: seq<int>, neg: seq<int>)
      requires Valid() && !stopped && PlaceOk(cfg.space, v, normal, power, neg)
      modifies this, heatNormal, heatPower, heatNeg
      ensures Snapshot() == Apply(cfg, old(Snapshot()), Place(v, normal, power, neg))
    {
      var must := cfg.space.must;
      var bombs := BombSet(must + normal, power, neg);
      var sum := CalculateScoreImpact(normal, power, neg, bombs, v.nb, must);
      if InTarget(sum, cfg.tmin, cfg.tmax) {
        if Below(totalFound, cfg.maxAnalysis) {
          CountPlacement(v, normal, power, neg, sum, bombs);
        } else {
          stopped := true;
        }
      }
    }

    /** One power combination: count the size of the negative loop, then place every
        negative combination of the cells left, stopping early once the search stops. */
    method ProcessPower(v: View, normal: seq<int>, rem1: seq<int>, power: seq<int>)
      requires Valid() && !stopped && PlaceOk(cfg.space, v, normal, power, []) && Cells(rem1, |v.nb|)
      modifies this, heatNormal, heatPower, heatNeg
      ensures Snapshot() == Fold(Step(cfg), old(Snapshot()), PowerBlock(LaterGen, cfg.space, v, normal, rem1, power))
    {
      ghost var s0 := Snapshot();
      StepHalts(cfg);
      var rem2 := Without(rem1, power);
      WithoutCells(rem1, power, |v.nb|);
      var size := NCrBig(|rem2|, cfg.space.bn);
      processed := processed + size;
      ghost var tick := [Tick(size)];
      FoldSnoc(Step(cfg), s0, [], Tick(size));
      var negs := GetCombinations(rem2, cfg.space.bn);
      var i := 0;
      while i < |negs| && !stopped
        invariant 0 <= i <= |negs|
        invariant Snapshot() == Fold(Step(cfg), s0, tick + NegEvents(v, normal, power, negs[..i]))
      {
        var g := negs[i];
        CombsCells(LaterGen, rem2, cfg.space.bn, negs, i, |v.nb|);
        ProcessPlacement(v, normal, power, g);
        NegStep(Step(cfg), s0, tick, v, normal, power, negs, i);
        i := i + 1;
      }
      NegRest(Step(cfg), Halted, s0, tick, v, normal, power, negs, i);
    }
  
    /** One normal combination: every power combination of the cells it leaves. */
    method ProcessNormal(v: View, normal: seq<int>)
      requires Valid() && !stopped && PlaceOk(cfg.space, v, normal, [], []) && Cells(v.avail, |v.nb|)
      modifies this, heatNormal, heatPower, heatNeg
      ensures Snapshot() == Fold(Step(cfg), old(Snapshot()), NormalBlock(LaterGen, cfg.space, v, normal))
    {
      ghost var s0 := Snapshot();
      StepHalts(cfg);
      var rem1 := Without(v.avail, normal);
      WithoutCells(v.avail, normal, |v.nb|);
      var powers := GetCombinations(rem1, cfg.space.b2);
      var i := 0;
      while i < |powers| && !stopped
        invariant 0 <= i <= |powers|
        invariant Snapshot() == Fold(Step(cfg), s0, PowerEvents(LaterGen, cfg.space, v, normal, rem1, powers[..i]))
      {
        CombsCells(LaterGen, rem1, cfg.space.b2, powers, i, |v.nb|);
        ProcessPower(v, normal, rem1, powers[i]);
        PowerStep(Step(cfg), LaterGen, cfg.space, s0, v, normal, rem1, powers, i);
        i := i + 1;
      }
      PowerRest(Step(cfg), Halted, LaterGen, cfg.space, s0, v, normal, rem1, powers, i);
    }

    /** One switch mask: compute its view, skip it when the bombs do not fit, and run
        every normal combination of the available cells otherwise. */
    method ProcessMask(mask: nat)
      requires Valid() && !stopped && WellFormed(cfg.space)
      modifies this, heatNormal, heatPower, heatNeg
      ensures Snapshot() == Fold(Step(cfg), old(Snapshot()), MaskEvents(LaterGen, cfg.space, mask))
    {
      ghost var s0 := Snapshot();
      StepHalts(cfg);
      StepIgnoresMarkers(cfg);
      MaskFold(Step(cfg), LaterGen, cfg.space, s0, mask);
      var v := ComputeView(cfg.space, mask);
      ViewInBoard(cfg.space, mask);
      if |v.avail| < cfg.space.b1 + cfg.space.b2 + cfg.space.bn {
        return;
      }
      var normals := GetCombinations(v.avail, cfg.space.b1);
      var i := 0;
      while i < |normals| && !stopped
        invariant 0 <= i <= |normals|
        invariant Snapshot() == Fold(Step(cfg), s0, NormalEvents(LaterGen, cfg.space, v, normals[..i]))
      {
        CombsCells(LaterGen, v.avail, cfg.space.b1, normals, i, |v.nb|);
        ProcessNormal(v, normals[i]);
        NormalStep(Step(cfg), LaterGen, cfg.space, s0, v, normals, i);
        i := i + 1;
      }
      NormalRest(Step(cfg), Halted, LaterGen, cfg.space, s0, v, normals, i);
    }
  }

  /** `runSolver`: the estimate it reports first, then the switch loop over every mask
      until the search stops; the final state is the fold of the worker's step over the
      whole search, so every property of `Result` holds of it. */
  method RunSolver(cfg: Config) returns (r: Run, est: int)
    requires WellFormed(cfg.space)
    ensures est == Estimate(cfg.space, 0)
    ensures r.cfg == cfg && r.Valid() && r.Snapshot() == Result(cfg)
    ensures Consistent(cfg, r.Snapshot())
    ensures Reports(cfg, r.Snapshot(), Hits(cfg, SearchEvents(LaterGen, cfg.space)), cfg.TotalCells())
  {
    r := new Run(cfg);
    est := ComputeEstimate(cfg.space, 0);
    ghost var s0 := r.Snapshot();
    StepHalts(cfg);
    var numSwitchStates := ShiftOne(|cfg.space.switches|);
    var i: nat := 0;
    while i < numSwitchStates && !r.stopped
      invariant i <= NumMasks(cfg.space)
      invariant r.cfg == cfg && r.Valid()
      invariant fresh(r.heatNormal) && fresh(r.heatPower) && fresh(r.heatNeg)
      invariant r.Snapshot() == Fold(Step(cfg), s0, MaskRange(LaterGen, cfg.space, 0, i))
    {
      r.ProcessMask(i);
      MaskStep(Step(cfg), LaterGen, cfg.space, s0, i);
      i := i + 1;
    }
    MaskRest(Step(cfg), Halted, LaterGen, cfg.space, s0, i, NumMasks(cfg.space));
    ResultConsistent(cfg);
    ResultCountsHits(cfg);
  }
}
