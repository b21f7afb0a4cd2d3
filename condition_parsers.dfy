/** The star-condition editor of the in-page generations: the six condition templates'
    parsers, which turn the text of a condition input into a condition record or refuse
    it, and the gathering of the three star slots into the per-star condition lists the
    solvers read. Both generations share this code; the first generation also raises
    its abort flag when the gathering fails (see `Rmv1Solver.Session`). */
module ConditionParsers {
  import opened Common
  import opened Conditions
  import opened Text

  /** The six entries of the template table, by the label each one shows. */
  datatype Template =
    | RequiredSum        // getScore
    | ZeroValueCells     // emptyCellsCount
    | SpecificValue      // anyCellValue
    | BombCells          // placeBombAt
    | CellValuePairs     // cellValues
    | SwitchStatePairs   // setSwitches

  // ---------------------------------------------------------------------------
  // Token lists
  // ---------------------------------------------------------------------------

  /** `tokens.map(Number)`; the tokens are trimmed, so `Number` reads each one as it
      stands (`Text.NumberOfTrimmed`). */
  function Numbers(toks: seq<string>): (ns: seq<Num>)
    ensures |ns| == |toks| && forall j :: 0 <= j < |toks| ==> ns[j] == NumberOfToken(toks[j])
  {
    seq(|toks|, j requires 0 <= j < |toks| => NumberOfToken(toks[j]))
  }

  /** `!ns.some(isNaN)`. */
  predicate AllInts(ns: seq<Num>)
  {
    forall j :: 0 <= j < |ns| ==> ns[j].Int?
  }

  function Values(ns: seq<Num>): (vs: seq<int>)
    requires AllInts(ns)
    ensures |vs| == |ns| && forall j :: 0 <= j < |ns| ==> ns[j] == Int(vs[j])
  {
    seq(|ns|, j requires 0 <= j < |ns| => ns[j].v)
  }

  /** The numbers with the values vs. */
  function IntsOf(vs: seq<int>): (ns: seq<Num>)
    ensures |ns| == |vs| && AllInts(ns) && Values(ns) == vs
    ensures forall j :: 0 <= j < |vs| ==> ns[j] == Int(vs[j])
  {
    seq(|vs|, j requires 0 <= j < |vs| => Int(vs[j]))
  }

  /** Numbers that are all integers are the numbers of their values. */
  lemma IntsOfValues(ns: seq<Num>)
    requires AllInts(ns)
    ensures IntsOf(Values(ns)) == ns
  {
  }

  /** An even-length list read two at a time, as the loops `for (i = 0; i < n; i += 2)`
      read it: pair p is entries 2p and 2p + 1. */
  function PairUp<T>(xs: seq<T>): (ps: seq<(T, T)>)
    requires |xs| % 2 == 0
    ensures |ps| * 2 == |xs|
    ensures forall p {:trigger ps[p]} :: 0 <= p < |ps| ==> ps[p] == (xs[2 * p], xs[2 * p + 1])
  {
    if xs == [] then []
    else
      var n := |xs|;
      var pre := PairUp(xs[..n - 2]);
      assert forall p {:trigger pre[p]} :: 0 <= p < |pre| ==> pre[p] == (xs[2 * p], xs[2 * p + 1]);
      pre + [(xs[n - 2], xs[n - 1])]
  }

  /** The pairs laid out flat again. */
  function Unpair<T>(ps: seq<(T, T)>): (xs: seq<T>)
    ensures |xs| == 2 * |ps|
  {
    if ps == [] then [] else Unpair(ps[..|ps| - 1]) + [ps[|ps| - 1].0, ps[|ps| - 1].1]
  }

  /** Pairing up a flat layout of pairs gives the pairs back. */
  lemma {:induction false} PairUpUnpair<T>(ps: seq<(T, T)>)
    ensures PairUp(Unpair(ps)) == ps
    decreases |ps|
  {
    if ps != [] {
      var xs := Unpair(ps);
      PairUpUnpair(ps[..|ps| - 1]);
      assert xs[..|xs| - 2] == Unpair(ps[..|ps| - 1]);
    }
  }

  /** One pair appended to the list appends one pair to its reading. */
  lemma PairUpStep<T>(xs: seq<T>, i: nat)
    requires i % 2 == 0 && i + 2 <= |xs|
    ensures PairUp(xs[..i + 2]) == PairUp(xs[..i]) + [(xs[i], xs[i + 1])]
  {
    assert xs[..i + 2][..i] == xs[..i];
  }

  /** The ID, value requirements of `cellValues`, one per pair. */
  function CellPairs(ps: seq<(int, int)>): (reqs: seq<CellReq>)
    ensures |reqs| == |ps| && forall p :: 0 <= p < |ps| ==> reqs[p] == CellReq(ps[p].0, ps[p].1)
  {
    seq(|ps|, p requires 0 <= p < |ps| => CellReq(ps[p].0, ps[p].1))
  }

  /** One ID, state pair of `setSwitches`: the ID must be a number and the state, in
      upper case, ON or OFF. */
  function ReadSwitch(id: string, state: string): (r: Option<SwitchReq>)
    ensures r.Some? <==> NumberOfToken(id).Int? && (Upper(state) == "ON" || Upper(state) == "OFF")
    ensures r.Some? ==> NumberOfToken(id) == Int(r.value.id)
    ensures r.Some? ==> (r.value.state == SwitchOn <==> Upper(state) == "ON")
  {
    var n := NumberOfToken(id);
    var s := Upper(state);
    if n.NaN? || (s != "ON" && s != "OFF") then None
    else Some(SwitchReq(n.v, if s == "ON" then SwitchOn else SwitchOff))
  }

  /** The switch requirements of a pair list, or nothing when any pair is invalid. */
  function SwitchPairs(ps: seq<(string, string)>): Option<seq<SwitchReq>>
  {
    if ps == [] then Some([])
    else
      var pre := SwitchPairs(ps[..|ps| - 1]);
      var last := ReadSwitch(ps[|ps| - 1].0, ps[|ps| - 1].1);
      if pre.None? || last.None? then None else Some(pre.value + [last.value])
  }

  /** The pairs are accepted exactly when every pair is valid, and then each requirement
      is the reading of its pair. */
  lemma {:induction false} SwitchPairsMeaning(ps: seq<(string, string)>)
    ensures SwitchPairs(ps).Some? <==> forall p :: 0 <= p < |ps| ==> ReadSwitch(ps[p].0, ps[p].1).Some?
    ensures SwitchPairs(ps).Some? ==> |SwitchPairs(ps).value| == |ps|
    ensures SwitchPairs(ps).Some? ==>
      forall p :: 0 <= p < |ps| ==> Some(SwitchPairs(ps).value[p]) == ReadSwitch(ps[p].0, ps[p].1)
    decreases |ps|
  {
    if ps != [] {
      var init := ps[..|ps| - 1];
      SwitchPairsMeaning(init);
      forall p | 0 <= p < |init| ensures ps[p] == init[p] {
      }
    }
  }

  // ---------------------------------------------------------------------------
  // The parsers
  // ---------------------------------------------------------------------------

  /** The `placeBombAt` parser: the tokens as numbers, refused when one is NaN. It accepts
      exactly when every token is a number, and then the cells are those numbers in order. */
  function PlaceBombAtParser(text: string): (r: Option<Condition>)
    ensures r.Some? <==> AllInts(Numbers(Tokens(text)))
    ensures r.Some? ==> r.value.PlaceBombAt?
    ensures r.Some? ==> Numbers(Tokens(text)) == IntsOf(r.value.cells)
  {
    var ns := Numbers(Tokens(text));
    if AllInts(ns) then
      IntsOfValues(ns);
      Some(PlaceBombAt(Values(ns)))
    else None
  }

  /** The `cellValues` parser: refused when a token is NaN or the count is odd; otherwise
      requirement p is the pair of entries 2p and 2p + 1. */
  function CellValuesParser(text: string): (r: Option<Condition>)
    ensures r.Some? <==> AllInts(Numbers(Tokens(text))) && |Tokens(text)| % 2 == 0
    ensures r.Some? ==> r.value.CellValues? && |r.value.cellReqs| * 2 == |Tokens(text)|
    ensures r.Some? ==> forall p :: 0 <= p < |r.value.cellReqs| ==>
      (Int(r.value.cellReqs[p].id), Int(r.value.cellReqs[p].value)) == PairUp(Numbers(Tokens(text)))[p]
  {
    var ns := Numbers(Tokens(text));
    if !AllInts(ns) || |ns| % 2 != 0 then None
    else
      var vs := Values(ns);
      CellPairsOfNumbers(ns);
      Some(CellValues(CellPairs(PairUp(vs))))
  }

  /** Reading the numbers in pairs and reading their values in pairs agree. */
  lemma CellPairsOfNumbers(ns: seq<Num>)
    requires AllInts(ns) && |ns| % 2 == 0
    ensures forall p :: 0 <= p < |CellPairs(PairUp(Values(ns)))| ==>
      (Int(CellPairs(PairUp(Values(ns)))[p].id), Int(CellPairs(PairUp(Values(ns)))[p].value)) == PairUp(ns)[p]
  {
    var vs := Values(ns);
    var ps := PairUp(vs);
    var qs := PairUp(ns);
    var reqs := CellPairs(ps);
    forall p | 0 <= p < |reqs| ensures (Int(reqs[p].id), Int(reqs[p].value)) == qs[p] {
      assert ps[p] == (vs[2 * p], vs[2 * p + 1]);
      assert qs[p] == (ns[2 * p], ns[2 * p + 1]);
    }
  }

  /** The `setSwitches` parser: refused when the count is odd or a pair is invalid, with
      one requirement per pair otherwise. */
  function SetSwitchesParser(text: string): (r: Option<Condition>)
    ensures r.Some? <==> |Tokens(text)| % 2 == 0 && SwitchPairs(PairUp(Tokens(text))).Some?
    ensures r.Some? ==> r.value.SetSwitches? && |r.value.switchReqs| * 2 == |Tokens(text)|
  {
    var toks := Tokens(text);
    if |toks| % 2 != 0 then None
    else
      var reqs := SwitchPairs(PairUp(toks));
      if reqs.None? then None
      else
        SwitchPairsMeaning(PairUp(toks));
        Some(SetSwitches(reqs.value))
  }

  /** `template.parser(inputs)` on the trimmed, non-empty text of the template's input;
      `None` is the parser's `null`. */
  function Parse(t: Template, text: string): (r: Option<Condition>)
    ensures t.RequiredSum? || t.ZeroValueCells? || t.SpecificValue? ==> r.Some?
    ensures r.Some? ==> KindOf(t, r.value)
  {
    match t
    case RequiredSum => Some(GetScore(NumberOfToken(text)))
    case ZeroValueCells => Some(EmptyCellsCount(NumberOfToken(text)))
    case SpecificValue => Some(AnyCellValue(NumberOfToken(text)))
    case BombCells => PlaceBombAtParser(text)
    case CellValuePairs => CellValuesParser(text)
    case SwitchStatePairs => SetSwitchesParser(text)
  }

  /** The condition type each template's parser produces. */
  predicate KindOf(t: Template, c: Condition)
  {
    match t
    case RequiredSum => c.GetScore?
    case ZeroValueCells => c.EmptyCellsCount?
    case SpecificValue => c.AnyCellValue?
    case BombCells => c.PlaceBombAt?
    case CellValuePairs => c.CellValues?
    case SwitchStatePairs => c.SetSwitches?
  }

  /** The pairing loop of `cellValues`: `for (i = 0; i < n; i += 2)` pushes the
      requirement `{id: parts[i], value: parts[i + 1]}`. */
  method PairRequirements(vs: seq<int>) returns (reqs: seq<CellReq>)
    requires |vs| % 2 == 0
    ensures reqs == CellPairs(PairUp(vs))
  {
    reqs := [];
    var i := 0;
    while i < |vs|
      invariant 0 <= i <= |vs| && i == 2 * |reqs|
      invariant reqs == CellPairs(PairUp(vs[..i]))
    {
      PairUpStep(vs, i);
      reqs := reqs + [CellReq(vs[i], vs[i + 1])];
      i := i + 2;
    }
    assert vs[..i] == vs;
  }

  /** The `cellValues` parser. */
  method ParseCellValues(text: string) returns (r: Option<Condition>)
    ensures r == CellValuesParser(text)
  {
    var parts := Numbers(Tokens(text));
    if !AllInts(parts) || |parts| % 2 != 0 {
      return None;
    }
    var reqs := PairRequirements(Values(parts));
    r := Some(CellValues(reqs));
  }

  /** A failed pair fails the whole list, whatever follows it. */
  lemma {:induction false} SwitchPairsFailureStays(ps: seq<(string, string)>, i: nat)
    requires i <= |ps| && SwitchPairs(ps[..i]).None?
    ensures SwitchPairs(ps).None?
    decreases |ps| - i
  {
    if i < |ps| {
      assert ps[..i + 1][..i] == ps[..i];
      SwitchPairsFailureStays(ps, i + 1);
    } else {
      assert ps[..i] == ps;
    }
  }

  lemma SwitchPairsSnoc(ps: seq<(string, string)>, x: (string, string))
    ensures SwitchPairs(ps + [x]) ==
      if SwitchPairs(ps).None? || ReadSwitch(x.0, x.1).None? then None
      else Some(SwitchPairs(ps).value + [ReadSwitch(x.0, x.1).value])
  {
    assert (ps + [x])[..|ps|] == ps;
  }

  /** The pairs of a prefix are a prefix of the pairs. */
  lemma PairUpPrefix<T>(xs: seq<T>, i: nat)
    requires |xs| % 2 == 0 && i % 2 == 0 && i <= |xs|
    ensures PairUp(xs)[..i / 2] == PairUp(xs[..i])
  {
    var ps := PairUp(xs);
    var qs := PairUp(xs[..i]);
    assert |qs| == i / 2;
    forall p | 0 <= p < i / 2 ensures ps[p] == qs[p] {
      assert qs[p] == (xs[..i][2 * p], xs[..i][2 * p + 1]);
    }
  }

  /** An invalid pair at i fails the pairs read up to and including it. */
  lemma FailedPairPrefix(parts: seq<string>, i: nat)
    requires i % 2 == 0 && i + 2 <= |parts|
    requires ReadSwitch(parts[i], parts[i + 1]).None?
    ensures SwitchPairs(PairUp(parts[..i + 2])).None?
  {
    PairUpStep(parts, i);
    SwitchPairsSnoc(PairUp(parts[..i]), (parts[i], parts[i + 1]));
  }

  /** An invalid pair at i fails the whole list. */
  lemma FailedPairFails(parts: seq<string>, i: nat)
    requires |parts| % 2 == 0 && i % 2 == 0 && i + 2 <= |parts|
    requires ReadSwitch(parts[i], parts[i + 1]).None?
    ensures SwitchPairs(PairUp(parts)).None?
  {
    var m := i + 2;
    FailedPairPrefix(parts, i);
    PairUpPrefix(parts, m);
    SwitchPairsFailureStays(PairUp(parts), m / 2);
  }

  /** A valid pair at i extends the requirements read so far by its own. */
  lemma ValidPairExtends(parts: seq<string>, i: nat, reqs: seq<SwitchReq>)
    requires i % 2 == 0 && i + 2 <= |parts|
    requires SwitchPairs(PairUp(parts[..i])) == Some(reqs)
    requires ReadSwitch(parts[i], parts[i + 1]).Some?
    ensures SwitchPairs(PairUp(parts[..i + 2])) == Some(reqs + [ReadSwitch(parts[i], parts[i + 1]).value])
  {
    PairUpStep(parts, i);
    SwitchPairsSnoc(PairUp(parts[..i]), (parts[i], parts[i + 1]));
  }

  /** One pass of the `setSwitches` loop, at pair k (entries 2k and 2k + 1): an invalid
      pair refuses the whole list, a valid one extends the requirements read so far. */
  method ReadPairAt(parts: seq<string>, k: nat, reqs: seq<SwitchReq>) returns (q: Option<SwitchReq>)
    requires |parts| % 2 == 0 && 2 * k < |parts|
    requires PairsRead(parts, k, reqs)
    ensures 2 * k + 2 <= |parts|
    ensures q.None? ==> SwitchPairs(PairUp(parts)).None?
    ensures q.Some? ==> PairsRead(parts, k + 1, reqs + [q.value])
  {
    var i := 2 * k;
    Even(k);
    Even(k + 1);
    q := ReadSwitch(parts[i], parts[i + 1]);
    if q.None? {
      FailedPairFails(parts, i);
    } else {
      ValidPairExtends(parts, i, reqs);
    }
  }

  /** The pairing loop of `setSwitches`, which stops at the first invalid pair. */
  method ReadSwitchPairs(parts: seq<string>) returns (r: Option<seq<SwitchReq>>)
    requires |parts| % 2 == 0
    ensures r == SwitchPairs(PairUp(parts))
  {
    var reqs: seq<SwitchReq> := [];
    var i := 0;
    while i < |parts|
      invariant i == 2 * |reqs| <= |parts|
      invariant PairsRead(parts, |reqs|, reqs)
    {
      var q := ReadPairAt(parts, |reqs|, reqs);
      if q.None? {
        return None;
      }
      reqs := reqs + [q.value];
      i := i + 2;
    }
    AllPairsRead(parts, reqs);
    r := Some(reqs);
  }

  /** The first k pairs of parts give the requirements reqs. */
  predicate PairsRead(parts: seq<string>, k: nat, reqs: seq<SwitchReq>)
  {
    2 * k <= |parts| && (Even(k); SwitchPairs(PairUp(parts[..2 * k])) == Some(reqs))
  }

  /** Once every pair is read, the requirements are those of the whole list. */
  lemma AllPairsRead(parts: seq<string>, reqs: seq<SwitchReq>)
    requires 2 * |reqs| == |parts| && PairsRead(parts, |reqs|, reqs)
    ensures SwitchPairs(PairUp(parts)) == Some(reqs)
  {
    assert parts[..2 * |reqs|] == parts;
  }

  /** The `setSwitches` parser. */
  method ParseSetSwitches(text: string) returns (r: Option<Condition>)
    ensures r == SetSwitchesParser(text)
  {
    var parts := Tokens(text);
    if |parts| % 2 != 0 {
      return None;
    }
    var reqs := ReadSwitchPairs(parts);
    if reqs.None? {
      return None;
    }
    r := Some(SetSwitches(reqs.value));
  }

  // ---------------------------------------------------------------------------
  // Round trips: the text a condition is written as parses back to it
  // ---------------------------------------------------------------------------

  function ShowAll(vs: seq<int>): (ts: seq<string>)
    ensures |ts| == |vs| && AllBare(ts)
    ensures forall j :: 0 <= j < |vs| ==> ts[j] == Show(vs[j]) && ts[j] != []
  {
    seq(|vs|, j requires 0 <= j < |vs| => Show(vs[j]))
  }

  lemma NumbersShowAll(vs: seq<int>)
    ensures Numbers(ShowAll(vs)) == IntsOf(vs)
  {
    forall j | 0 <= j < |vs|
      ensures NumberOfToken(ShowAll(vs)[j]) == Int(vs[j])
    {
      NumberShow(vs[j]);
    }
  }

  lemma Even(n: nat)
    ensures (2 * n) % 2 == 0
  {
  }

  /** The cell ids written `6, 13, 22`. */
  function FormatCells(cells: seq<int>): string
    requires |cells| >= 1
  {
    Join(ShowAll(cells), ',')
  }

  /** A non-empty list of cell ids, written out, parses back to the same list. */
  lemma BombCellsRoundTrip(cells: seq<int>)
    requires |cells| >= 1
    ensures PlaceBombAtParser(FormatCells(cells)) == Some(PlaceBombAt(cells))
  {
    var toks := ShowAll(cells);
    TokensOfJoin(toks);
    NumbersShowAll(cells);
    BombCellsOfNumbers(FormatCells(cells), cells);
  }

  /** Text whose tokens read as the given numbers is accepted with exactly those cells. */
  lemma BombCellsOfNumbers(text: string, cells: seq<int>)
    requires Numbers(Tokens(text)) == IntsOf(cells)
    ensures PlaceBombAtParser(text) == Some(PlaceBombAt(cells))
  {
    var ns := Numbers(Tokens(text));
    assert AllInts(ns) by {
      forall j | 0 <= j < |ns| ensures ns[j].Int? {
        assert ns[j] == Int(cells[j]);
      }
    }
    assert Values(ns) == cells;
  }

  /** Each requirement as its ID, value pair. */
  function ReqPairs(reqs: seq<CellReq>): (ps: seq<(int, int)>)
    ensures CellPairs(ps) == reqs
  {
    var ps := seq(|reqs|, p requires 0 <= p < |reqs| => (reqs[p].id, reqs[p].value));
    assert CellPairs(ps) == reqs;
    ps
  }

  /** The pairs written `9, 10, 6, 10`. */
  function FormatCellValues(reqs: seq<CellReq>): string
    requires |reqs| >= 1
  {
    Join(ShowAll(Unpair(ReqPairs(reqs))), ',')
  }

  lemma CellValuesOfNumbers(text: string, vs: seq<int>)
    requires Numbers(Tokens(text)) == IntsOf(vs) && |vs| % 2 == 0
    ensures CellValuesParser(text) == Some(CellValues(CellPairs(PairUp(vs))))
  {
  }

  /** Integers written comma-separated read back as the same numbers. */
  lemma NumbersOfWritten(vs: seq<int>)
    requires |vs| >= 1
    ensures Numbers(Tokens(Join(ShowAll(vs), ','))) == IntsOf(vs)
  {
    TokensOfJoin(ShowAll(vs));
    NumbersShowAll(vs);
  }

  /** A non-empty requirement list, written out, parses back to the same list. */
  lemma CellValuesRoundTrip(reqs: seq<CellReq>)
    requires |reqs| >= 1
    ensures CellValuesParser(FormatCellValues(reqs)) == Some(CellValues(reqs))
  {
    var ps := ReqPairs(reqs);
    var vs := Unpair(ps);
    NumbersOfWritten(vs);
    Even(|ps|);
    PairUpUnpair(ps);
    CellValuesOfNumbers(FormatCellValues(reqs), vs);
  }

  function StateWord(s: SwitchState): (w: string)
    ensures w != [] && Bare(w)
  {
    if s == SwitchOn then "ON" else "OFF"
  }

  /** A switch requirement as its pair of tokens `5, ON`. */
  function SwitchPair(q: SwitchReq): (string, string)
  {
    (Show(q.id), StateWord(q.state))
  }

  /** The switch requirements written `5, ON, 6, OFF`. */
  function FormatSwitches(reqs: seq<SwitchReq>): string
    requires |reqs| >= 1
  {
    Join(Unpair(seq(|reqs|, p requires 0 <= p < |reqs| => SwitchPair(reqs[p]))), ',')
  }

  lemma ReadSwitchPair(q: SwitchReq)
    ensures ReadSwitch(SwitchPair(q).0, SwitchPair(q).1) == Some(q)
  {
    NumberShow(q.id);
    UpperStateWord(q.state);
  }

  /** The state words are already upper case. */
  lemma UpperStateWord(s: SwitchState)
    ensures Upper(StateWord(s)) == StateWord(s)
  {
    var w := StateWord(s);
    assert |Upper(w)| == |w|;
    forall k | 0 <= k < |w| ensures Upper(w)[k] == w[k] {
      assert w[k] == 'O' || w[k] == 'N' || w[k] == 'F';
    }
  }

  lemma UnpairBare(ps: seq<(string, string)>)
    requires forall p :: 0 <= p < |ps| ==> ps[p].0 != [] && ps[p].1 != [] && Bare(ps[p].0) && Bare(ps[p].1)
    ensures var xs := Unpair(ps); AllBare(xs) && forall j :: 0 <= j < |xs| ==> xs[j] != []
  {
    if ps != [] {
      UnpairBare(ps[..|ps| - 1]);
    }
  }

  lemma SwitchesOfTokens(text: string, ps: seq<(string, string)>, reqs: seq<SwitchReq>)
    requires Tokens(text) == Unpair(ps) && SwitchPairs(ps) == Some(reqs)
    ensures SetSwitchesParser(text) == Some(SetSwitches(reqs))
  {
    Even(|ps|);
    PairUpUnpair(ps);
  }

  lemma SwitchPairsOfWritten(reqs: seq<SwitchReq>)
    ensures SwitchPairs(seq(|reqs|, p requires 0 <= p < |reqs| => SwitchPair(reqs[p]))) == Some(reqs)
  {
    var ps := seq(|reqs|, p requires 0 <= p < |reqs| => SwitchPair(reqs[p]));
    forall p | 0 <= p < |ps|
      ensures ReadSwitch(ps[p].0, ps[p].1) == Some(reqs[p])
    {
      ReadSwitchPair(reqs[p]);
    }
    SwitchPairsMeaning(ps);
    var r := SwitchPairs(ps);
    assert r.value == reqs;
  }

  /** A non-empty switch requirement list, written out, parses back to the same list. */
  lemma SwitchesRoundTrip(reqs: seq<SwitchReq>)
    requires |reqs| >= 1
    ensures SetSwitchesParser(FormatSwitches(reqs)) == Some(SetSwitches(reqs))
  {
    var ps := seq(|reqs|, p requires 0 <= p < |reqs| => SwitchPair(reqs[p]));
    UnpairBare(ps);
    TokensOfJoin(Unpair(ps));
    SwitchPairsOfWritten(reqs);
    SwitchesOfTokens(FormatSwitches(reqs), ps, reqs);
  }

  // ---------------------------------------------------------------------------
  // Gathering the three star slots
  // ---------------------------------------------------------------------------

  /** What a star slot holds: no container or no row, no type chosen, or a chosen
      template with the raw text of its input (`String(input.value || '')`). */
  datatype Slot = Absent | Unselected | Chosen(template: Template, input: string)

  /** The conditions of one slot: `Some([])` for an empty slot, `Some([c])` for a parsed
      one, `None` when the input is blank or the parser refuses it. */
  function SlotConditions(s: Slot): (r: Option<seq<Condition>>)
    ensures s.Chosen? && Trim(s.input) != [] && Parse(s.template, Trim(s.input)).Some? ==>
      r == Some([Parse(s.template, Trim(s.input)).value])
    ensures !s.Chosen? ==> r == Some([])
    ensures r.None? <==> s.Chosen? && (Trim(s.input) == [] || Parse(s.template, Trim(s.input)).None?)
  {
    if !s.Chosen? then Some([])
    else
      var text := Trim(s.input);
      if text == [] then None
      else
        var c := Parse(s.template, text);
        if c.None? then None else Some([c.value])
  }

  /** The values of a list of results, or `None` as soon as one of them is `None`. */
  function Collect<T>(rs: seq<Option<T>>): (r: Option<seq<T>>)
  {
    if rs == [] then Some([])
    else
      var pre := Collect(rs[..|rs| - 1]);
      var last := rs[|rs| - 1];
      if pre.None? || last.None? then None else Some(pre.value + [last.value])
  }

  /** Collecting fails exactly when some result is missing, and otherwise keeps every
      value in place. */
  lemma {:induction false} CollectShape<T>(rs: seq<Option<T>>)
    ensures Collect(rs).None? <==> exists k :: 0 <= k < |rs| && rs[k].None?
    ensures Collect(rs).Some? ==> |Collect(rs).value| == |rs|
    ensures Collect(rs).Some? ==> forall k :: 0 <= k < |rs| ==> Some(Collect(rs).value[k]) == rs[k]
    decreases |rs|
  {
    if rs != [] {
      var init := rs[..|rs| - 1];
      CollectShape(init);
      if Collect(init).None? {
        var k :| 0 <= k < |init| && init[k].None?;
        assert rs[k] == init[k];
      }
      forall k | 0 <= k < |init|
        ensures rs[k] == init[k]
      {
      }
    }
  }

  /** One more result extends the collection or fails it. */
  lemma CollectSnoc<T>(rs: seq<Option<T>>, x: Option<T>)
    ensures Collect(rs + [x]) == if Collect(rs).None? || x.None? then None else Some(Collect(rs).value + [x.value])
  {
    assert (rs + [x])[..|rs|] == rs;
  }

  /** The result of every slot, in order. */
  function SlotResults(slots: seq<Slot>): (rs: seq<Option<seq<Condition>>>)
    ensures |rs| == |slots| && forall k :: 0 <= k < |slots| ==> rs[k] == SlotConditions(slots[k])
  {
    if slots == [] then []
    else SlotResults(slots[..|slots| - 1]) + [SlotConditions(slots[|slots| - 1])]
  }

  /** `getStarConditionsFromUI()` before its failure value: the per-star lists, or
      `None` when some slot fails. */
  function Gather(slots: seq<Slot>): (r: Option<seq<seq<Condition>>>)
  {
    Collect(SlotResults(slots))
  }

  /** A slot gives at most one condition. */
  lemma SlotAtMostOne(s: Slot)
    ensures SlotConditions(s).Some? ==> |SlotConditions(s).value| <= 1
  {
  }

  /** The gathering fails exactly when some slot fails; otherwise it yields one list per
      slot, each that slot's conditions: empty or a single record. */
  lemma GatherShape(slots: seq<Slot>)
    ensures Gather(slots).None? <==> exists k :: 0 <= k < |slots| && SlotConditions(slots[k]).None?
    ensures Gather(slots).Some? ==> |Gather(slots).value| == |slots|
    ensures Gather(slots).Some? ==> forall k :: 0 <= k < |slots| ==>
      Some(Gather(slots).value[k]) == SlotConditions(slots[k]) && |Gather(slots).value[k]| <= 1
  {
    var rs := SlotResults(slots);
    CollectShape(rs);
    if Gather(slots).None? {
      var k :| 0 <= k < |rs| && rs[k].None?;
      assert SlotConditions(slots[k]).None?;
    }
    forall k | 0 <= k < |slots| && Gather(slots).Some?
      ensures Some(Gather(slots).value[k]) == SlotConditions(slots[k]) && |Gather(slots).value[k]| <= 1
    {
      assert Some(Gather(slots).value[k]) == rs[k];
      SlotAtMostOne(slots[k]);
    }
  }

  /** `getStarConditionsFromUI()` as the solvers see it: `[]` on failure. */
  function StarConditions(slots: seq<Slot>): (r: seq<seq<Condition>>)
    ensures (exists k :: 0 <= k < |slots| && SlotConditions(slots[k]).None?) ==> r == []
    ensures (forall k :: 0 <= k < |slots| ==> SlotConditions(slots[k]).Some?) ==>
      |r| == |slots| && forall k :: 0 <= k < |slots| ==> Some(r[k]) == SlotConditions(slots[k]) && |r[k]| <= 1
  {
    GatherShape(slots);
    var g := Gather(slots);
    if g.None? then [] else g.value
  }

  /** The trimmed input of a chosen slot, parsed by its template, as one star's pass
      of the loop does it. */
  method ReadSlot(s: Slot) returns (r: Option<seq<Condition>>)
    ensures r == SlotConditions(s)
  {
    if !s.Chosen? {
      return Some([]);
    }
    var text := Trim(s.input);
    if text == [] {
      return None;
    }
    var c := Parse(s.template, text);
    if c.None? {
      return None;
    }
    r := Some([c.value]);
  }

  /** The slots read so far, plus one more. */
  lemma SlotResultsSnoc(slots: seq<Slot>, i: nat)
    requires i < |slots|
    ensures SlotResults(slots[..i + 1]) == SlotResults(slots[..i]) + [SlotConditions(slots[i])]
  {
    assert slots[..i + 1][..i] == slots[..i];
  }

  /** The loop over the star slots, with its early `return []`; `failed` is what the
      first generation records in its abort flag. */
  method GetStarConditionsFromUI(slots: seq<Slot>) returns (groups: seq<seq<Condition>>, failed: bool)
    ensures failed <==> Gather(slots).None?
    ensures groups == StarConditions(slots)
  {
    groups := [];
    var starId := 0;
    while starId < |slots|
      invariant 0 <= starId <= |slots|
      invariant Gather(slots[..starId]) == Some(groups)
    {
      var r := ReadSlot(slots[starId]);
      SlotResultsSnoc(slots, starId);
      CollectSnoc(SlotResults(slots[..starId]), r);
      if r.None? {
        GatherFailureStays(slots, starId + 1);
        return [], true;
      }
      groups := groups + [r.value];
      starId := starId + 1;
    }
    assert slots[..starId] == slots;
    failed := false;
  }

  /** A failed slot fails the gathering, whatever follows it. */
  lemma GatherFailureStays(slots: seq<Slot>, i: nat)
    requires i <= |slots| && Gather(slots[..i]).None?
    ensures Gather(slots).None?
  {
    var rs := SlotResults(slots);
    CollectShape(SlotResults(slots[..i]));
    var k :| 0 <= k < i && SlotResults(slots[..i])[k].None?;
    assert rs[k].None?;
    CollectShape(rs);
  }
}
