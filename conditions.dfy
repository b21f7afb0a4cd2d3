/** Star-condition records as the condition parsers build them and the solvers read
    them, and the eight condition-intersection buckets. */
module Conditions {
  import opened Common

  /** A JavaScript number as `Number(text)` produces it from an input: an integer or NaN.
      NaN is equal to nothing, itself included. */
  datatype Num = Int(v: int) | NaN

  /** `x === n`. */
  predicate NumIs(n: Num, x: int)
  {
    n == Int(x)
  }

  datatype SwitchState = SwitchOn | SwitchOff

  datatype CellReq = CellReq(id: int, value: int)

  datatype SwitchReq = SwitchReq(id: int, state: SwitchState)

  /** One condition record; `Unknown` stands for any other `type` string. */
  datatype Condition =
    | GetScore(value: Num)
    | PlaceBombAt(cells: seq<int>)
    | AnyCellValue(value: Num)
    | CellValues(cellReqs: seq<CellReq>)
    | EmptyCellsCount(value: Num)
    | SetSwitches(switchReqs: seq<SwitchReq>)
    | Unknown(kind: string)

  /** The eight `conditionStats` buckets. */
  datatype Bucket = NoneMet | C1C2C3 | C1C2 | C1C3 | C2C3 | C1Only | C2Only | C3Only

  /** The bucket of a three-entry condition status, by the first-match chain of the
      solver and the post-solve analysis. Every status lands in exactly the bucket that
      names the set of its true entries. */
  function Classify(s: seq<bool>): (b: Bucket)
    requires |s| == 3
    ensures b == NoneMet <==> !s[0] && !s[1] && !s[2]
    ensures b == C1C2C3 <==> s[0] && s[1] && s[2]
    ensures b == C1C2 <==> s[0] && s[1] && !s[2]
    ensures b == C1C3 <==> s[0] && !s[1] && s[2]
    ensures b == C2C3 <==> !s[0] && s[1] && s[2]
    ensures b == C1Only <==> s[0] && !s[1] && !s[2]
    ensures b == C2Only <==> !s[0] && s[1] && !s[2]
    ensures b == C3Only <==> !s[0] && !s[1] && s[2]
  {
    if CountTrue(s) == 0 then NoneMet
    else if s[0] && s[1] && s[2] then C1C2C3
    else if s[0] && s[1] then C1C2
    else if s[0] && s[2] then C1C3
    else if s[1] && s[2] then C2C3
    else if s[0] then C1Only
    else if s[1] then C2Only
    else C3Only
  }

  /** `status.filter(Boolean).length`. */
  function CountTrue(s: seq<bool>): (n: nat)
    ensures n <= |s|
    ensures n == 0 <==> forall j :: 0 <= j < |s| ==> !s[j]
  {
    if s == [] then 0 else CountTrue(s[..|s| - 1]) + (if s[|s| - 1] then 1 else 0)
  }

  /** Setting a false entry adds one to the count. */
  lemma {:induction false} CountTrueSet(s: seq<bool>, k: nat)
    requires k < |s| && !s[k]
    ensures CountTrue(s[k := true]) == CountTrue(s) + 1
    decreases |s|
  {
    var last := |s| - 1;
    var t := s[k := true];
    if k < last {
      assert t[..last] == s[..last][k := true] && t[last] == s[last];
      CountTrueSet(s[..last], k);
    } else {
      assert t[..last] == s[..last] && t[last];
    }
  }

  /** The bucket counters, one per bucket. */
  datatype BucketCounts = BucketCounts(none: nat, c123: nat, c12: nat, c13: nat, c23: nat, c1: nat, c2: nat, c3: nat)
  {
    function Get(b: Bucket): nat
    {
      match b
      case NoneMet => none
      case C1C2C3 => c123
      case C1C2 => c12
      case C1C3 => c13
      case C2C3 => c23
      case C1Only => c1
      case C2Only => c2
      case C3Only => c3
    }

    function Total(): nat
    {
      none + c123 + c12 + c13 + c23 + c1 + c2 + c3
    }

    /** `conditionStats[b]++`: the total grows by one and only bucket b changes. */
    function Bump(b: Bucket): (r: BucketCounts)
      ensures r.Total() == Total() + 1
      ensures forall o: Bucket :: r.Get(o) == Get(o) + (if o == b then 1 else 0)
    {
      BucketCounts(none + One(b == NoneMet), c123 + One(b == C1C2C3), c12 + One(b == C1C2),
        c13 + One(b == C1C3), c23 + One(b == C2C3), c1 + One(b == C1Only),
        c2 + One(b == C2Only), c3 + One(b == C3Only))
    }
  }

  function One(c: bool): nat
  {
    if c then 1 else 0
  }

  const NoBuckets := BucketCounts(0, 0, 0, 0, 0, 0, 0, 0)

  // ---------------------------------------------------------------------------
  // The scans the condition checks are made of
  // ---------------------------------------------------------------------------

  /** `cells.every(id => bombs.has(id))`. */
  function AllBombed(cells: seq<int>, bombs: set<int>): (r: bool)
    ensures r <==> forall j :: 0 <= j < |cells| ==> cells[j] in bombs
  {
    if cells == [] then true
    else AllBombed(cells[..|cells| - 1], bombs) && cells[|cells| - 1] in bombs
  }

  /** `cells.some(id => bombs.has(id))`. */
  function AnyBombed(cells: seq<int>, bombs: set<int>): (r: bool)
    ensures r <==> exists j :: 0 <= j < |cells| && cells[j] in bombs
  {
    if cells == [] then false
    else AnyBombed(cells[..|cells| - 1], bombs) || cells[|cells| - 1] in bombs
  }

  /** `for (v of cellValues.values()) if (v === x) ...`: some cell of the field holds x. */
  function HasValue(cv: seq<int>, x: Num): (r: bool)
    ensures r <==> exists c :: 0 <= c < |cv| && NumIs(x, cv[c])
  {
    if cv == [] then false
    else HasValue(cv[..|cv| - 1], x) || NumIs(x, cv[|cv| - 1])
  }

  /** The cells of the field whose value is 0, leaving out `exclude`. */
  ghost function ZeroCells(cv: seq<int>, exclude: set<int>): set<int>
  {
    set c | 0 <= c < |cv| && cv[c] == 0 && c !in exclude
  }

  /** The zero counter of `emptyCellsCount`, over every cell id of the field. */
  function ZeroCount(cv: seq<int>, exclude: set<int>): (n: nat)
    ensures n <= |cv|
  {
    if cv == [] then 0
    else ZeroCount(cv[..|cv| - 1], exclude) + (if cv[|cv| - 1] == 0 && |cv| - 1 !in exclude then 1 else 0)
  }

  /** The scan `for (v of cellValues.values()) if (v === x) { met = true; break; }`. */
  method FindValue(cv: seq<int>, x: Num) returns (met: bool)
    ensures met <==> exists c :: 0 <= c < |cv| && NumIs(x, cv[c])
  {
    met := false;
    var i := 0;
    while i < |cv|
      invariant 0 <= i <= |cv|
      invariant !met
      invariant forall c :: 0 <= c < i ==> !NumIs(x, cv[c])
    {
      if NumIs(x, cv[i]) {
        met := true;
        return;
      }
      i := i + 1;
    }
  }

  /** The counting loop of `emptyCellsCount`: every id of the field, skipping `exclude`. */
  method CountZeros(cv: seq<int>, exclude: set<int>) returns (z: nat)
    ensures z == |ZeroCells(cv, exclude)|
  {
    z := 0;
    for c := 0 to |cv|
      invariant z == ZeroCount(cv[..c], exclude)
    {
      assert cv[..c + 1][..c] == cv[..c];
      if cv[c] == 0 && c !in exclude {
        z := z + 1;
      }
    }
    assert cv[..|cv|] == cv;
    ZeroCountIsCardinality(cv, exclude);
  }

  /** The counter counts exactly the zero-valued cells that are not excluded. */
  lemma {:induction false} ZeroCountIsCardinality(cv: seq<int>, exclude: set<int>)
    ensures ZeroCount(cv, exclude) == |ZeroCells(cv, exclude)|
    decreases |cv|
  {
    if cv != [] {
      var last := |cv| - 1;
      var pre := cv[..last];
      ZeroCountIsCardinality(pre, exclude);
      if cv[last] == 0 && last !in exclude {
        assert ZeroCells(cv, exclude) == ZeroCells(pre, exclude) + {last};
        assert last !in ZeroCells(pre, exclude);
      } else {
        assert ZeroCells(cv, exclude) == ZeroCells(pre, exclude);
      }
    }
  }

  /** Excluding more cells never counts more. */
  lemma {:induction false} ZeroCountAntitone(cv: seq<int>, a: set<int>, b: set<int>)
    requires a <= b
    ensures ZeroCount(cv, b) <= ZeroCount(cv, a)
    decreases |cv|
  {
    if cv != [] {
      ZeroCountAntitone(cv[..|cv| - 1], a, b);
    }
  }

  /** `requirements.every(req => !avoid.has(req.id) && cellValues.get(req.id) === req.value)`:
      an id outside the field reads `undefined`, which equals no number. */
  function ReqsHold(reqs: seq<CellReq>, cv: seq<int>, avoid: set<int>): (r: bool)
    ensures r <==> forall j :: 0 <= j < |reqs| ==>
      reqs[j].id !in avoid && 0 <= reqs[j].id < |cv| && cv[reqs[j].id] == reqs[j].value
  {
    if reqs == [] then true
    else
      var q := reqs[|reqs| - 1];
      ReqsHold(reqs[..|reqs| - 1], cv, avoid) && q.id !in avoid && 0 <= q.id < |cv| && cv[q.id] == q.value
  }

  /** The LevelDesign polarity: `SWITCH_OFF` asks for a blocked switch, `SWITCH_ON` for an
      open one. */
  function OffMeansBlocked(reqs: seq<SwitchReq>, blocked: seq<int>): (r: bool)
    ensures r <==> forall j :: 0 <= j < |reqs| ==> (reqs[j].state == SwitchOff <==> reqs[j].id in blocked)
  {
    if reqs == [] then true
    else
      var q := reqs[|reqs| - 1];
      OffMeansBlocked(reqs[..|reqs| - 1], blocked) &&
      (if q.state == SwitchOff then q.id in blocked else q.id !in blocked)
  }

  /** The polarity of the other two generations: `SWITCH_ON` asks for a blocked switch. */
  function OnMeansBlocked(reqs: seq<SwitchReq>, blocked: seq<int>): (r: bool)
    ensures r <==> forall j :: 0 <= j < |reqs| ==> (reqs[j].state == SwitchOn <==> reqs[j].id in blocked)
  {
    if reqs == [] then true
    else
      var q := reqs[|reqs| - 1];
      OnMeansBlocked(reqs[..|reqs| - 1], blocked) &&
      ((q.state == SwitchOn && q.id in blocked) || (q.state == SwitchOff && q.id !in blocked))
  }

  function Flip(reqs: seq<SwitchReq>): (r: seq<SwitchReq>)
    ensures |r| == |reqs|
    ensures forall j :: 0 <= j < |reqs| ==> r[j].id == reqs[j].id && r[j].state != reqs[j].state
  {
    if reqs == [] then []
    else
      var q := reqs[|reqs| - 1];
      Flip(reqs[..|reqs| - 1]) + [SwitchReq(q.id, if q.state == SwitchOn then SwitchOff else SwitchOn)]
  }

  /** The two polarities are opposite: a requirement list holds under one reading exactly
      when its flipped list holds under the other. */
  lemma SwitchPolarityOpposite(reqs: seq<SwitchReq>, blocked: seq<int>)
    ensures OffMeansBlocked(reqs, blocked) == OnMeansBlocked(Flip(reqs), blocked)
  {
  }
}
