/** The RMV2 controller (`RMV2/solver.js`): it reads the target range under the chosen
    mode, builds the worker's request, and keeps at most one worker running. */
module Controller {
  import opened Common
  import Conditions
  import opened Search
  import opened Stars
  import ConditionParsers

  // ---------------------------------------------------------------------------
  // Target normalisation
  // ---------------------------------------------------------------------------

  /** A target bound as a JavaScript number: an integer, either infinity, or NaN (what
      `parseInt` gives for text that does not start with a number). */
  datatype Bound = NegInf | PosInf | Finite(value: int) | NaN

  /** A target input after `.trim()`: blank, or what `parseInt` reads from it (`None`
      for NaN). */
  datatype Entry = Blank | Typed(parsed: Option<int>)

  function Parsed(p: Option<int>): Bound
  {
    if p.None? then NaN else Finite(p.value)
  }

  /** A blank minimum is -Infinity; anything else is `parseInt` of it. */
  function ReadMin(e: Entry): (b: Bound)
    ensures b != PosInf && (e.Blank? <==> b == NegInf)
  {
    if e.Blank? then NegInf else Parsed(e.parsed)
  }

  /** A blank maximum is +Infinity; anything else is `parseInt` of it. */
  function ReadMax(e: Entry): (b: Bound)
    ensures b != NegInf && (e.Blank? <==> b == PosInf)
  {
    if e.Blank? then PosInf else Parsed(e.parsed)
  }

  /** `modeTarget`'s value, `'range'` when missing or empty; only `'exact'` is special. */
  function IsExact(mode: Option<string>): bool
  {
    mode.Some? && mode.value == "exact"
  }

  /** The bounds `solveHandler` sends, and whether it warns that exact mode has no
      value: in exact mode a given minimum also becomes the maximum, and otherwise a
      given maximum also becomes the minimum. */
  function Normalise(exact: bool, minIn: Entry, maxIn: Entry): (r: (Bound, Bound, bool))
    ensures r.0 != PosInf && r.1 != NegInf
    ensures !exact ==> r.0 == ReadMin(minIn) && r.1 == ReadMax(maxIn)
    ensures exact && minIn.Typed? ==> r.0 == ReadMin(minIn) && r.1 == ReadMin(minIn)
    ensures exact && minIn.Blank? && maxIn.Typed? ==> r.0 == ReadMax(maxIn) && r.1 == ReadMax(maxIn)
    ensures exact && minIn.Blank? && maxIn.Blank? ==> r.0 == NegInf && r.1 == PosInf
    ensures r.2 <==> exact && minIn.Blank? && maxIn.Blank?
  {
    var lo := ReadMin(minIn);
    var hi := ReadMax(maxIn);
    if exact then
      if lo != NegInf then (lo, lo, false)
      else if hi != PosInf then (hi, hi, false)
      else (lo, hi, true)
    else (lo, hi, false)
  }

  /** `sum >= bound`, false against NaN. */
  predicate AtLeast(sum: int, b: Bound)
  {
    match b
    case NegInf => true
    case PosInf => false
    case Finite(v) => sum >= v
    case NaN => false
  }

  /** `sum <= bound`, false against NaN. */
  predicate AtMost(sum: int, b: Bound)
  {
    match b
    case NegInf => false
    case PosInf => true
    case Finite(v) => sum <= v
    case NaN => false
  }

  /** The worker's target test `sum >= tmin && sum <= tmax`. */
  predicate Accepts(sum: int, lo: Bound, hi: Bound)
  {
    AtLeast(sum, lo) && AtMost(sum, hi)
  }

  /** The bound as the worker model reads it: `None` for an infinite one. */
  function AsOption(b: Bound): Option<int>
  {
    if b.Finite? then Some(b.value) else None
  }

  /** For bounds that are not NaN, the test is the worker model's target range. */
  lemma AcceptsIsInTarget(sum: int, lo: Bound, hi: Bound)
    requires lo != NaN && hi != NaN && lo != PosInf && hi != NegInf
    ensures Accepts(sum, lo, hi) <==> InTarget(sum, AsOption(lo), AsOption(hi))
  {
  }

  /** A NaN bound, from an unreadable input, rejects every sum. */
  lemma NaNRejectsAll(sum: int, lo: Bound, hi: Bound)
    requires lo == NaN || hi == NaN
    ensures !Accepts(sum, lo, hi)
  {
  }

  /** In exact mode with a readable minimum t, exactly the sum t is on target, whatever
      the maximum says. */
  lemma ExactMinIsTarget(minIn: Entry, maxIn: Entry, t: int, sum: int)
    requires minIn == Typed(Some(t))
    ensures var r := Normalise(true, minIn, maxIn); Accepts(sum, r.0, r.1) <==> sum == t
  {
  }

  /** In exact mode with only a readable maximum t, exactly the sum t is on target. */
  lemma ExactMaxIsTarget(maxIn: Entry, t: int, sum: int)
    requires maxIn == Typed(Some(t))
    ensures var r := Normalise(true, Blank, maxIn); Accepts(sum, r.0, r.1) <==> sum == t
  {
  }

  /** Exact mode with nothing entered accepts every sum, as range mode with nothing
      entered does. */
  lemma ExactBlankAcceptsAll(sum: int)
    ensures var r := Normalise(true, Blank, Blank); Accepts(sum, r.0, r.1) && r.2
    ensures var r := Normalise(false, Blank, Blank); Accepts(sum, r.0, r.1) && !r.2
  {
  }

  /** The request posted to the worker: the bounds, the bomb counts (`parseInt(..) || 0`),
      the cap (`|| 5000`) and the star conditions as gathered. */
  datatype Request = Request(tmin: Bound, tmax: Bound, bombs1: int, bombs2: int, bombsNeg: int,
                             maxSolutions: int, starConditions: seq<seq<Conditions.Condition>>)

  /** The inputs `solveHandler` reads from the page. */
  datatype Inputs = Inputs(mode: Option<string>, minIn: Entry, maxIn: Entry, bombs1: Option<int>,
                           bombs2: Option<int>, bombsNeg: Option<int>, maxSolutions: Option<int>,
                           slots: seq<ConditionParsers.Slot>)

  function RequestOf(inp: Inputs): (req: Request)
    ensures (req.tmin, req.tmax) == (Normalise(IsExact(inp.mode), inp.minIn, inp.maxIn).0,
                                     Normalise(IsExact(inp.mode), inp.minIn, inp.maxIn).1)
    ensures req.maxSolutions != 0 && req.starConditions == ConditionParsers.StarConditions(inp.slots)
  {
    var r := Normalise(IsExact(inp.mode), inp.minIn, inp.maxIn);
    Request(r.0, r.1, OrDefault(inp.bombs1, 0), OrDefault(inp.bombs2, 0), OrDefault(inp.bombsNeg, 0),
      OrDefault(inp.maxSolutions, 5000), ConditionParsers.StarConditions(inp.slots))
  }

  /** The reading part of `solveHandler`: the mode, the two bounds (copied across in
      exact mode), the bomb counts, the cap and the star conditions. */
  method ReadRequest(inp: Inputs) returns (req: Request)
    ensures req == RequestOf(inp)
  {
    var exact := IsExact(inp.mode);
    var tmin := ReadMin(inp.minIn);
    var tmax := ReadMax(inp.maxIn);
    if exact {
      if tmin != NegInf {
        tmax := tmin;
      } else if tmax != PosInf {
        tmin := tmax;
      }
    }
    var groups, _ := ConditionParsers.GetStarConditionsFromUI(inp.slots);
    req := Request(tmin, tmax, OrDefault(inp.bombs1, 0), OrDefault(inp.bombs2, 0),
      OrDefault(inp.bombsNeg, 0), OrDefault(inp.maxSolutions, 5000), groups);
  }

  // ---------------------------------------------------------------------------
  // The worker lifecycle
  // ---------------------------------------------------------------------------

  /** The controller's state: `activeWorker` (workers are numbered in start order),
      the workers started and terminated so far, and the results it writes. */
  class Session {
    var activeWorker: Option<nat>
    var started: nat
    var terminated: set<nat>
    var solutions: seq<Record>
    var lastTotalCombinations: int
    var posted: seq<Request>

    /** The running workers are exactly the active one: no worker is left running
        unreferenced. */
    predicate Valid()
      reads this
    {
      (forall w :: w in terminated ==> w < started) &&
      (activeWorker.Some? ==> activeWorker.value < started && activeWorker.value !in terminated) &&
      (forall w :: 0 <= w < started && w !in terminated ==> activeWorker == Some(w))
    }

    constructor()
      ensures Valid() && activeWorker.None? && solutions == [] && lastTotalCombinations == 0
    {
      activeWorker := None;
      started := 0;
      terminated := {};
      solutions := [];
      lastTotalCombinations := 0;
      posted := [];
    }

    /** `solveHandler`: terminate the previous worker, clear the results, then start a
        new worker and post it the request. */
    method SolveHandler(inp: Inputs) returns (req: Request)
      requires Valid()
      modifies this
      ensures Valid() && req == RequestOf(inp)
      ensures old(activeWorker).Some? ==> old(activeWorker).value in terminated
      ensures activeWorker == Some(old(started)) && started == old(started) + 1
      ensures solutions == [] && lastTotalCombinations == 0 && posted == old(posted) + [req]
    {
      if activeWorker.Some? {
        terminated := terminated + {activeWorker.value};
      }
      // every worker started so far is now terminated
      assert forall w :: 0 <= w < started ==> w in terminated;
      solutions := [];
      lastTotalCombinations := 0;
      req := ReadRequest(inp);
      activeWorker := Some(started);
      started := started + 1;
      posted := posted + [req];
    }

    /** An `estUpdate` message of the active worker, stored as `BigInt(msg.value)`
        whatever its sign: with 31 switches the worker's `1 << 31` wraps and the
        estimate it posts is negative. */
    method OnEstimate(value: int)
      requires Valid() && activeWorker.Some?
      modifies this
      ensures Valid() && lastTotalCombinations == value
      ensures activeWorker == old(activeWorker) && solutions == old(solutions)
      ensures started == old(started) && terminated == old(terminated) && posted == old(posted)
    {
      lastTotalCombinations := value;
    }

    /** The `done` message: take the worker's records and retire it. */
    method OnDone(records: seq<Record>)
      requires Valid() && activeWorker.Some?
      modifies this
      ensures Valid() && activeWorker.None? && solutions == records
      ensures terminated == old(terminated) + {old(activeWorker).value}
      ensures started == old(started) && lastTotalCombinations == old(lastTotalCombinations) && posted == old(posted)
    {
      solutions := records;
      terminated := terminated + {activeWorker.value};
      activeWorker := None;
    }

    /** `onerror`: retire the worker; the results stay as they are. */
    method OnError()
      requires Valid() && activeWorker.Some?
      modifies this
      ensures Valid() && activeWorker.None?
      ensures terminated == old(terminated) + {old(activeWorker).value}
      ensures solutions == old(solutions) && lastTotalCombinations == old(lastTotalCombinations)
      ensures started == old(started) && posted == old(posted)
    {
      terminated := terminated + {activeWorker.value};
      activeWorker := None;
    }

    /** `cancelSolver`: retire the active worker; with none active, nothing changes. */
    method CancelSolver()
      requires Valid()
      modifies this
      ensures Valid() && activeWorker.None?
      ensures old(activeWorker).None? ==> terminated == old(terminated)
      ensures old(activeWorker).Some? ==> terminated == old(terminated) + {old(activeWorker).value}
      ensures solutions == old(solutions) && lastTotalCombinations == old(lastTotalCombinations)
      ensures started == old(started) && posted == old(posted)
    {
      if activeWorker.Some? {
        terminated := terminated + {activeWorker.value};
        activeWorker := None;
      }
    }
  }
}
