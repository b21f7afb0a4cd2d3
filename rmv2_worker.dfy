/** The RMV2 solver worker: the search of every generation, keeping each on-target
    placement as a record with its star-condition status, and stopping as soon as the
    list of records reaches `maxSolutions`. */
module Rmv2Worker {
  import opened Common
  import opened Combinatorics
  import opened Conditions
  import opened Placement
  import opened Search
  import opened Stars

  /** The worker's `config`. The bounds are `None` for -Infinity and +Infinity; a missing
      `maxSolutions` is `None`, and `n >= undefined` is false. A missing star group is
      an empty one: both are skipped. */
  datatype Config = Config(space: Space, tmin: Option<int>, tmax: Option<int>,
                           maxSolutions: Option<int>, starConditions: seq<seq<Condition>>)
  {
    /** What decides whether a placement is kept and what its record holds. */
    function Accepts(): Acceptance
    {
      Acceptance(starConditions, space, tmin, tmax)
    }
  }

  // ---------------------------------------------------------------------------
  // The worker's state and its step
  // ---------------------------------------------------------------------------

  datatype State = State(solutions: seq<Record>, processed: nat, stopped: bool)

  const Initial := State([], 0, false)

  /** `solutions.length >= maxSolutions`, false for a missing cap. */
  predicate AtCap(n: int, maxSolutions: Option<int>)
  {
    maxSolutions.Some? && n >= maxSolutions.value
  }

  /** What one event does: a tick adds to `processedCount`; an on-target placement is
      pushed, and the run ends once the list reaches the cap; nothing changes once the
      run has ended. */
  function Apply(cfg: Config, s: State, e: Event): State
  {
    if s.stopped then s
    else match e
      case Tick(count) => s.(processed := s.processed + count)
      case Place(_, _, _, _) =>
        var rs := NewRecord(cfg.Accepts(), e);
        if rs == [] then s
        else State(s.solutions + rs, s.processed, AtCap(|s.solutions| + 1, cfg.maxSolutions))
      case _ => s
  }

  /** The worker's step: nothing changes once it has stopped, and the mask markers
      change nothing. */
  function Step(cfg: Config): (step: (State, Event) -> State)
    ensures Halts(step, Halted) && IgnoresMarkers(step)
  {
    (s, e) => Apply(cfg, s, e)
  }

  function Result(cfg: Config): State
  {
    Fold(Step(cfg), Initial, SearchEvents(LaterGen, cfg.space))
  }

  function Halted(s: State): bool
  {
    s.stopped
  }

  lemma StepHalts(cfg: Config)
    ensures Halts(Step(cfg), Halted)
  {
  }

  lemma StepIgnoresMarkers(cfg: Config)
    ensures IgnoresMarkers(Step(cfg))
  {
  }

  // ---------------------------------------------------------------------------
  // What the worker posts
  // ---------------------------------------------------------------------------

  /** A running state has fewer records than the limit; a stopped one has exactly the
      limit. */
  predicate Caps(cfg: Config, s: State)
  {
    (s.stopped ==> cfg.maxSolutions.Some? && |s.solutions| == Limit(cfg.maxSolutions.value)) &&
    (!s.stopped && cfg.maxSolutions.Some? ==> |s.solutions| < Limit(cfg.maxSolutions.value))
  }

  lemma {:induction false} FoldCaps(cfg: Config, s: State, evs: seq<Event>)
    requires Caps(cfg, s)
    ensures Caps(cfg, Fold(Step(cfg), s, evs))
    decreases |evs|
  {
    if evs != [] {
      FoldCaps(cfg, s, evs[..|evs| - 1]);
    }
  }

  /** A run that starts without having stopped posts a prefix of the records of the
      events, and all of them when it does not stop. */
  lemma {:induction false} FoldRecords(cfg: Config, s: State, evs: seq<Event>)
    requires !s.stopped
    ensures var t := Fold(Step(cfg), s, evs);
      t.solutions <= s.solutions + Records(cfg.Accepts(), evs) &&
      (!t.stopped ==> t.solutions == s.solutions + Records(cfg.Accepts(), evs))
    decreases |evs|
  {
    if evs != [] {
      var pre := evs[..|evs| - 1];
      var e := evs[|evs| - 1];
      var acc := cfg.Accepts();
      FoldRecords(cfg, s, pre);
      var t := Fold(Step(cfg), s, pre);
      var all := s.solutions + Records(acc, pre);
      assert Fold(Step(cfg), s, evs) == Apply(cfg, t, e);
      RecordsSnoc(acc, s.solutions, evs);
      ApplyRecords(cfg, t, e, all);
    }
  }

  /** One event keeps the list a prefix of the records so far, and equal to them while
      the flag stays down. */
  lemma ApplyRecords(cfg: Config, t: State, e: Event, all: seq<Record>)
    requires t.solutions <= all && (!t.stopped ==> t.solutions == all)
    ensures var u := Apply(cfg, t, e); var rs := NewRecord(cfg.Accepts(), e);
      u.solutions <= all + rs && (!u.stopped ==> u.solutions == all + rs)
  {
    var rs := NewRecord(cfg.Accepts(), e);
    assert all <= all + rs;
  }

  /** All the records without a cap, the first ones up to the limit with one. */
  function Posted(maxSolutions: Option<int>, all: seq<Record>): seq<Record>
  {
    if maxSolutions.Some? then FirstRecords(maxSolutions.value, all) else all
  }

  /** The worker posts the on-target records of the search in search order: all of them,
      or the first `maxSolutions` (at least one) when there are that many. */
  lemma ResultPostsFirstRecords(cfg: Config)
    ensures Result(cfg).solutions == Posted(cfg.maxSolutions, Records(cfg.Accepts(), SearchEvents(LaterGen, cfg.space)))
    ensures Result(cfg).stopped <==> cfg.maxSolutions.Some? && Limit(cfg.maxSolutions.value) <= |Records(cfg.Accepts(), SearchEvents(LaterGen, cfg.space))|
  {
    var evs := SearchEvents(LaterGen, cfg.space);
    var all := Records(cfg.Accepts(), evs);
    FoldRecords(cfg, Initial, evs);
    FoldCaps(cfg, Initial, evs);
    var t := Fold(Step(cfg), Initial, evs);
    assert t == Result(cfg);
    assert Initial.solutions + all == all;
    if t.stopped {
      assert t.solutions == all[..|t.solutions|];
    }
  }

  /** Every posted record is on target, counts its true stars, and starts with the
      must-bombs; at most `maxSolutions` are posted for a cap of at least one. */
  lemma ResultRecordsGood(cfg: Config)
    ensures forall j :: 0 <= j < |Result(cfg).solutions| ==> GoodRecord(cfg.Accepts(), Result(cfg).solutions[j])
    ensures cfg.maxSolutions.Some? && cfg.maxSolutions.value >= 1 ==> |Result(cfg).solutions| <= cfg.maxSolutions.value
  {
    var all := Records(cfg.Accepts(), SearchEvents(LaterGen, cfg.space));
    ResultPostsFirstRecords(cfg);
    RecordsGood(cfg.Accepts(), SearchEvents(LaterGen, cfg.space));
    var sols := Result(cfg).solutions;
    assert forall j :: 0 <= j < |sols| ==> sols[j] == all[j];
  }

  // ---------------------------------------------------------------------------
  // runSolver
  // ---------------------------------------------------------------------------

  /** The locals of one `runSolver` call: the records pushed so far, `processedCount`,
      and whether the early `return` has been taken. */
  class Run {
    const cfg: Config
    var solutions: seq<Record>
    var processed: nat
    var stopped: bool

    function Snapshot(): State
      reads this
    {
      State(solutions, processed, stopped)
    }

    constructor(cfg: Config)
      ensures this.cfg == cfg && Snapshot() == Initial
    {
      this.cfg := cfg;
      solutions := [];
      processed := 0;
      stopped := false;
    }

    /** The body of the negative-bomb loop: score the placement and, when the sum is on
        target, build the value field, evaluate the stars, push the record and end the
        run at the cap. */
    method ProcessPlacement(v: View, normal: seq<int>, power: seq<int>, neg: seq<int>)
      requires !stopped && PlaceOk(cfg.space, v, normal, power, neg)
      modifies this
      ensures Snapshot() == Apply(cfg, old(Snapshot()), Place(v, normal, power, neg))
    {
      var must := cfg.space.must;
      var finalNormal := must + normal;
      CellsAppend(must, normal, |v.nb|);
      var bombs := BombSet(finalNormal, power, neg);
      var sum := CalculateScoreImpact(normal, power, neg, bombs, v.nb, must);
      if InTarget(sum, cfg.tmin, cfg.tmax) {
        var cv := ComputeCellValues(v.nb, bombs, finalNormal, power, neg);
        var status, stars := Evaluate(cfg.starConditions, sum, bombs, cv, v);
        solutions := solutions + [Record(finalNormal, power, neg, sum, stars, status, v.blockedList)];
        if cfg.maxSolutions.Some? && |solutions| >= cfg.maxSolutions.value {
          stopped := true;
        }
      }
    }

    /** One power combination: add the size of the negative loop to `processedCount`,
        then place every negative combination of the cells left until the run ends. */
    method ProcessPower(v: View, normal: seq<int>, rem1: seq<int>, power: seq<int>)
      requires !stopped && PlaceOk(cfg.space, v, normal, power, []) && Cells(rem1, |v.nb|)
      modifies this
      ensures Snapshot() == Fold(Step(cfg), old(Snapshot()), PowerBlock(LaterGen, cfg.space, v, normal, rem1, power))
    {
      ghost var s0 := Snapshot();
      StepHalts(cfg);
      var rem2 := Without(rem1, power);
      WithoutCells(rem1, power, |v.nb|);
      var size := NCrBig(|rem2|, cfg.space.bn);
      processed := processed + size;
      ghost var tick := [Tick(size)];
      FoldSnoc(Step(cfg), s0, [], Tick(size));
      var negs := GetCombinations(rem2, cfg.space.bn);
      var i := 0;
      while i < |negs| && !stopped
        invariant 0 <= i <= |negs|
        invariant Snapshot() == Fold(Step(cfg), s0, tick + NegEvents(v, normal, power, negs[..i]))
      {
        CombsCells(LaterGen, rem2, cfg.space.bn, negs, i, |v.nb|);
        ProcessPlacement(v, normal, power, negs[i]);
        NegStep(Step(cfg), s0, tick, v, normal, power, negs, i);
        i := i + 1;
      }
      NegRest(Step(cfg), Halted, s0, tick, v, normal, power, negs, i);
    }

    /** One normal combination: every power combination of the cells it leaves. */
    method ProcessNormal(v: View, normal: seq<int>)
      requires !stopped && PlaceOk(cfg.space, v, normal, [], []) && Cells(v.avail, |v.nb|)
      modifies this
      ensures Snapshot() == Fold(Step(cfg), old(Snapshot()), NormalBlock(LaterGen, cfg.space, v, normal))
    {
      ghost var s0 := Snapshot();
      StepHalts(cfg);
      var rem1 := Without(v.avail, normal);
      WithoutCells(v.avail, normal, |v.nb|);
      var powers := GetCombinations(rem1, cfg.space.b2);
      var i := 0;
      while i < |powers| && !stopped
        invariant 0 <= i <= |powers|
        invariant Snapshot() == Fold(Step(cfg), s0, PowerEvents(LaterGen, cfg.space, v, normal, rem1, powers[..i]))
      {
        CombsCells(LaterGen, rem1, cfg.space.b2, powers, i, |v.nb|);
        ProcessPower(v, normal, rem1, powers[i]);
        PowerStep(Step(cfg), LaterGen, cfg.space, s0, v, normal, rem1, powers, i);
        i := i + 1;
      }
      PowerRest(Step(cfg), Halted, LaterGen, cfg.space, s0, v, normal, rem1, powers, i);
    }

    /** One switch mask: compute its view, skip it when the bombs do not fit, and run
        every normal combination of the available cells otherwise. */
    method ProcessMask(mask: nat)
      requires !stopped && WellFormed(cfg.space)
      modifies this
      ensures Snapshot() == Fold(Step(cfg), old(Snapshot()), MaskEvents(LaterGen, cfg.space, mask))
    {
      ghost var s0 := Snapshot();
      StepHalts(cfg);
      StepIgnoresMarkers(cfg);
      MaskFold(Step(cfg), LaterGen, cfg.space, s0, mask);
      var v := ComputeView(cfg.space, mask);
      ViewInBoard(cfg.space, mask);
      if |v.avail| < cfg.space.b1 + cfg.space.b2 + cfg.space.bn {
        return;
      }
      var normals := GetCombinations(v.avail, cfg.space.b1);
      var i := 0;
      while i < |normals| && !stopped
        invariant 0 <= i <= |normals|
        invariant Snapshot() == Fold(Step(cfg), s0, NormalEvents(LaterGen, cfg.space, v, normals[..i]))
      {
        CombsCells(LaterGen, v.avail, cfg.space.b1, normals, i, |v.nb|);
        ProcessNormal(v, normals[i]);
        NormalStep(Step(cfg), LaterGen, cfg.space, s0, v, normals, i);
        i := i + 1;
      }
      NormalRest(Step(cfg), Halted, LaterGen, cfg.space, s0, v, normals, i);
    }
  }

  /** `runSolver`: the estimate it posts first (1 when the bombs do not fit), then the
      switch loop until the cap ends the run; the records it posts are the first
      on-target records of the search. */
  method RunSolver(cfg: Config) returns (r: Run, est: int)
    requires WellFormed(cfg.space)
    ensures est == Estimate(cfg.space, 1)
    ensures r.cfg == cfg && r.Snapshot() == Result(cfg)
    ensures r.solutions == Posted(cfg.maxSolutions, Records(cfg.Accepts(), SearchEvents(LaterGen, cfg.space)))
  {
    r := new Run(cfg);
    est := ComputeEstimate(cfg.space, 1);
    ghost var s0 := r.Snapshot();
    StepHalts(cfg);
    var numSwitchStates := ShiftOne(|cfg.space.switches|);
    var i: nat := 0;
    while i < numSwitchStates && !r.stopped
      invariant i <= NumMasks(cfg.space)
      invariant r.cfg == cfg
      invariant r.Snapshot() == Fold(Step(cfg), s0, MaskRange(LaterGen, cfg.space, 0, i))
    {
      r.ProcessMask(i);
      MaskStep(Step(cfg), LaterGen, cfg.space, s0, i);
      i := i + 1;
    }
    MaskRest(Step(cfg), Halted, LaterGen, cfg.space, s0, i, NumMasks(cfg.space));
    ResultPostsFirstRecords(cfg);
  }
}
