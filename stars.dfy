/** The star conditions as the RMV1 `store` and the RMV2 worker evaluate them inline
    (the two copies are the same code), and the record both keep for an on-target
    placement. */
module Stars {
  import opened Common
  import opened Conditions
  import opened Placement
  import opened Search

  // ---------------------------------------------------------------------------
  // The inline condition switch
  // ---------------------------------------------------------------------------

  /** One condition of the inline switch: `placeBombAt` needs some listed cell bombed;
      `setSwitches` reads `SWITCH_ON` as blocked; `cellValues` needs each listed cell to
      be a non-bomb with exactly that value; `emptyCellsCount` counts the zero-valued
      cells that are neither blocked nor bombed; any other type is not met. */
  function Met(cond: Condition, sum: int, bombs: set<int>, cv: seq<int>, v: View): (r: bool)
    ensures cond.GetScore? ==> (r <==> cond.value == Int(sum))
    ensures cond.PlaceBombAt? ==> (r <==> exists j :: 0 <= j < |cond.cells| && cond.cells[j] in bombs)
    ensures cond.AnyCellValue? ==> (r <==> exists c :: 0 <= c < |cv| && cond.value == Int(cv[c]))
    ensures cond.CellValues? ==> (r <==> forall j :: 0 <= j < |cond.cellReqs| ==>
      cond.cellReqs[j].id !in bombs && 0 <= cond.cellReqs[j].id < |cv| && cv[cond.cellReqs[j].id] == cond.cellReqs[j].value)
    ensures cond.EmptyCellsCount? ==> (r <==> cond.value == Int(|ZeroCells(cv, v.blocked + bombs)|))
    ensures cond.SetSwitches? ==> (r <==> forall j :: 0 <= j < |cond.switchReqs| ==>
      (cond.switchReqs[j].state == SwitchOn <==> cond.switchReqs[j].id in v.blockedList))
    ensures cond.Unknown? ==> !r
  {
    match cond
    case GetScore(x) => NumIs(x, sum)
    case PlaceBombAt(cells) => AnyBombed(cells, bombs)
    case AnyCellValue(x) => HasValue(cv, x)
    case CellValues(reqs) => ReqsHold(reqs, cv, bombs)
    case EmptyCellsCount(x) =>
      ZeroCountIsCardinality(cv, v.blocked + bombs);
      NumIs(x, ZeroCount(cv, v.blocked + bombs))
    case SetSwitches(reqs) => OnMeansBlocked(reqs, v.blockedList)
    case Unknown(_) => false
  }

  /** Star k is met when group k exists, is not empty and its first condition holds. */
  predicate StarMet(groups: seq<seq<Condition>>, k: nat, sum: int, bombs: set<int>, cv: seq<int>, v: View)
  {
    k < |groups| && |groups[k]| > 0 && Met(groups[k][0], sum, bombs, cv, v)
  }

  /** The three star flags. The LevelDesign worker builds its flags the same way, but
      over its own `checkCondition`, whose condition semantics differ (see
      `LevelDesign.Status`), so the two are kept apart. */
  function Status(groups: seq<seq<Condition>>, sum: int, bombs: set<int>, cv: seq<int>, v: View): (st: seq<bool>)
    ensures |st| == 3
    ensures forall k :: 0 <= k < 3 ==> (st[k] <==> StarMet(groups, k, sum, bombs, cv, v))
  {
    [StarMet(groups, 0, sum, bombs, cv, v), StarMet(groups, 1, sum, bombs, cv, v), StarMet(groups, 2, sum, bombs, cv, v)]
  }

  /** Groups beyond the third and conditions after the first are never read. */
  lemma StatusReadsFirstConditions(groups: seq<seq<Condition>>, other: seq<seq<Condition>>,
                                   sum: int, bombs: set<int>, cv: seq<int>, v: View)
    requires forall k :: 0 <= k < 3 ==>
      (k < |groups| && |groups[k]| > 0) == (k < |other| && |other[k]| > 0)
    requires forall k :: 0 <= k < 3 && k < |groups| && |groups[k]| > 0 ==> groups[k][0] == other[k][0]
    ensures Status(groups, sum, bombs, cv, v) == Status(other, sum, bombs, cv, v)
  {
  }

  /** The body of the `switch`, with the two scans of the field written as loops. */
  method Check(cond: Condition, sum: int, bombs: set<int>, cv: seq<int>, v: View) returns (met: bool)
    ensures met == Met(cond, sum, bombs, cv, v)
  {
    match cond
    case GetScore(x) => met := NumIs(x, sum);
    case PlaceBombAt(cells) => met := AnyBombed(cells, bombs);
    case AnyCellValue(x) => met := FindValue(cv, x);
    case CellValues(reqs) => met := ReqsHold(reqs, cv, bombs);
    case EmptyCellsCount(x) =>
      var z := CountZeros(cv, v.blocked + bombs);
      met := NumIs(x, z);
    case SetSwitches(reqs) => met := OnMeansBlocked(reqs, v.blockedList);
    case Unknown(_) => met := false;
  }

  /** `starConditions.forEach`: the status of the three stars and `starsCount`, which
      counts the true entries. */
  method Evaluate(groups: seq<seq<Condition>>, sum: int, bombs: set<int>, cv: seq<int>, v: View)
    returns (status: seq<bool>, stars: nat)
    ensures status == Status(groups, sum, bombs, cv, v)
    ensures stars == CountTrue(status)
  {
    status := [false, false, false];
    stars := 0;
    for idx := 0 to |groups|
      invariant |status| == 3
      invariant forall k :: 0 <= k < 3 ==> (status[k] <==> k < idx && StarMet(groups, k, sum, bombs, cv, v))
      invariant stars == CountTrue(status)
    {
      if |groups[idx]| > 0 && idx < 3 {
        var met := Check(groups[idx][0], sum, bombs, cv, v);
        if met {
          CountTrueSet(status, idx);
          stars := stars + 1;
          status := status[idx := true];
        }
      }
    }
  }

  // ---------------------------------------------------------------------------
  // Records
  // ---------------------------------------------------------------------------

  datatype Record = Record(normalBombs: seq<int>, powerBombs: seq<int>, negativeBombs: seq<int>,
                           sum: int, starsCount: nat, conditionStatus: seq<bool>, switchState: seq<int>)

  /** The record of a placement: `normalBombs` is `finalNormal`, the must-bombs followed
      by the normal combination; the sum is the total of the placement's value field. */
  function RecordOf(groups: seq<seq<Condition>>, sp: Space, v: View, normal: seq<int>, power: seq<int>, neg: seq<int>): (r: Record)
    requires PlaceOk(sp, v, normal, power, neg)
    ensures r.normalBombs == sp.must + normal && r.powerBombs == power && r.negativeBombs == neg
    ensures r.switchState == v.blockedList
    ensures Cells(r.normalBombs, |v.nb|) &&
      r.sum == Sum(CellField(v.nb, BombSet(r.normalBombs, power, neg), r.normalBombs, power, neg))
    ensures |r.conditionStatus| == 3 && r.starsCount == CountTrue(r.conditionStatus) <= 3
  {
    CellsAppend(sp.must, normal, |v.nb|);
    var fn := sp.must + normal;
    var bombs := BombSet(fn, power, neg);
    var sum := Score(fn, power, neg, v.nb, bombs);
    var cv := CellField(v.nb, bombs, fn, power, neg);
    CellFieldTotal(v.nb, bombs, fn, power, neg);
    var st := Status(groups, sum, bombs, cv, v);
    Record(fn, power, neg, sum, CountTrue(st), st, v.blockedList)
  }

  /** What decides whether a placement is kept, and what its record holds: the star
      groups, the level and the target bounds (`None` for an infinite one). */
  datatype Acceptance = Acceptance(groups: seq<seq<Condition>>, sp: Space, tmin: Option<int>, tmax: Option<int>)

  /** The record an event adds: one for a placement whose sum is on target, none
      otherwise. */
  function NewRecord(acc: Acceptance, e: Event): (rs: seq<Record>)
    ensures |rs| <= 1
    ensures rs != [] ==>
      && e.Place? && PlaceOk(acc.sp, e.view, e.normal, e.power, e.neg)
      && rs[0] == RecordOf(acc.groups, acc.sp, e.view, e.normal, e.power, e.neg)
      && InTarget(rs[0].sum, acc.tmin, acc.tmax)
  {
    if e.Place? && PlaceOk(acc.sp, e.view, e.normal, e.power, e.neg) then
      var r := RecordOf(acc.groups, acc.sp, e.view, e.normal, e.power, e.neg);
      if InTarget(r.sum, acc.tmin, acc.tmax) then [r] else []
    else []
  }

  /** Every on-target record of a run of events, in order. */
  function Records(acc: Acceptance, evs: seq<Event>): seq<Record>
  {
    if evs == [] then [] else Records(acc, evs[..|evs| - 1]) + NewRecord(acc, evs[|evs| - 1])
  }

  /** The records after a list already kept, one event further. */
  lemma RecordsSnoc(acc: Acceptance, kept: seq<Record>, evs: seq<Event>)
    requires evs != []
    ensures kept + Records(acc, evs) == (kept + Records(acc, evs[..|evs| - 1])) + NewRecord(acc, evs[|evs| - 1])
  {
    var front := Records(acc, evs[..|evs| - 1]);
    assert kept + (front + NewRecord(acc, evs[|evs| - 1])) == (kept + front) + NewRecord(acc, evs[|evs| - 1]);
  }

  /** What holds of every record kept. */
  predicate GoodRecord(acc: Acceptance, r: Record)
  {
    InTarget(r.sum, acc.tmin, acc.tmax) && |r.conditionStatus| == 3 &&
    r.starsCount == CountTrue(r.conditionStatus) &&
    |acc.sp.must| <= |r.normalBombs| && r.normalBombs[..|acc.sp.must|] == acc.sp.must
  }

  lemma {:induction false} RecordsGood(acc: Acceptance, evs: seq<Event>)
    ensures forall j :: 0 <= j < |Records(acc, evs)| ==> GoodRecord(acc, Records(acc, evs)[j])
    decreases |evs|
  {
    if evs != [] {
      var pre := evs[..|evs| - 1];
      RecordsGood(acc, pre);
      var rs := NewRecord(acc, evs[|evs| - 1]);
      if rs != [] {
        var r := rs[0];
        assert r.normalBombs[..|acc.sp.must|] == acc.sp.must;
      }
    }
  }

  /** The number of records at which `solutions.length >= maxSolutions` first holds: the
      test only follows a push, so it is at least one. */
  function Limit(maxSolutions: int): (n: nat)
    ensures n >= 1 && n >= maxSolutions
    ensures maxSolutions >= 1 ==> n == maxSolutions
  {
    if maxSolutions >= 1 then maxSolutions else 1
  }

  /** The records kept by a run that stops once the list reaches `maxSolutions`: the
      first `Limit(maxSolutions)` of them, or all when there are fewer. */
  function FirstRecords(maxSolutions: int, all: seq<Record>): (r: seq<Record>)
    ensures r <= all && |r| <= Limit(maxSolutions)
    ensures |r| < Limit(maxSolutions) ==> r == all
  {
    if Limit(maxSolutions) <= |all| then all[..Limit(maxSolutions)] else all
  }
}
