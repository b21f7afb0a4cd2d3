/** The string operations the condition parsers are built from: `split(',')`,
    `trim()`, `filter(Boolean)`, `Number(...)` over decimal integers and
    `toUpperCase()` over ASCII letters. */
module Text {
  import opened Conditions

  // ---------------------------------------------------------------------------
  // split and join
  // ---------------------------------------------------------------------------

  /** `s.split(sep)`: the pieces between separators; one piece more than there are
      separators, so an empty string gives one empty piece. */
  function Split(s: string, sep: char): (parts: seq<string>)
    ensures |parts| >= 1
    ensures forall j :: 0 <= j < |parts| ==> sep !in parts[j]
    decreases |s|
  {
    if s == [] then [[]]
    else
      var pre := Split(s[..|s| - 1], sep);
      var c := s[|s| - 1];
      if c == sep then pre + [[]] else pre[..|pre| - 1] + [pre[|pre| - 1] + [c]]
  }

  /** `parts.join(sep)`. */
  function Join(parts: seq<string>, sep: char): string
    requires |parts| >= 1
  {
    if |parts| == 1 then parts[0] else Join(parts[..|parts| - 1], sep) + [sep] + parts[|parts| - 1]
  }

  /** Joining the pieces back gives the string that was split. */
  lemma {:induction false} JoinSplit(s: string, sep: char)
    ensures Join(Split(s, sep), sep) == s
    decreases |s|
  {
    if s != [] {
      var init := s[..|s| - 1];
      var c := s[|s| - 1];
      var pre := Split(init, sep);
      JoinSplit(init, sep);
      if c == sep {
        assert Split(s, sep) == pre + [[]];
        JoinNewPart(pre, sep);
      } else {
        assert Split(s, sep) == pre[..|pre| - 1] + [pre[|pre| - 1] + [c]];
        JoinExtendLast(pre, c, sep);
      }
      assert init + [c] == s;
    }
  }

  /** A new empty last piece adds one separator. */
  lemma JoinNewPart(parts: seq<string>, sep: char)
    requires |parts| >= 1
    ensures Join(parts + [[]], sep) == Join(parts, sep) + [sep]
  {
    assert (parts + [[]])[..|parts|] == parts;
  }

  /** A character added to the last piece is added at the end. */
  lemma JoinExtendLast(parts: seq<string>, c: char, sep: char)
    requires |parts| >= 1
    ensures Join(parts[..|parts| - 1] + [parts[|parts| - 1] + [c]], sep) == Join(parts, sep) + [c]
  {
    var n := |parts|;
    var longer := parts[..n - 1] + [parts[n - 1] + [c]];
    if n > 1 {
      assert longer[..n - 1] == parts[..n - 1];
      var front := Join(parts[..n - 1], sep);
      assert (front + [sep] + parts[n - 1]) + [c] == front + [sep] + (parts[n - 1] + [c]);
    }
  }

  lemma {:induction false} SplitNoSep(b: string, sep: char)
    requires sep !in b
    ensures Split(b, sep) == [b]
    decreases |b|
  {
    if b != [] {
      SplitNoSep(b[..|b| - 1], sep);
      assert b[..|b| - 1] + [b[|b| - 1]] == b;
    }
  }

  lemma {:induction false} SplitAfterSep(a: string, b: string, sep: char)
    requires sep !in b
    ensures Split(a + [sep] + b, sep) == Split(a, sep) + [b]
    decreases |b|
  {
    if b == [] {
      assert (a + [sep] + b)[..|a + [sep] + b| - 1] == a;
    } else {
      var b0 := b[..|b| - 1];
      var s := a + [sep] + b;
      assert s[..|s| - 1] == a + [sep] + b0;
      SplitAfterSep(a, b0, sep);
      assert b0 + [b[|b| - 1]] == b;
    }
  }

  /** Splitting a join of separator-free pieces gives the pieces back. */
  lemma {:induction false} SplitJoin(parts: seq<string>, sep: char)
    requires |parts| >= 1
    requires forall j :: 0 <= j < |parts| ==> sep !in parts[j]
    ensures Split(Join(parts, sep), sep) == parts
    decreases |parts|
  {
    if |parts| == 1 {
      SplitNoSep(parts[0], sep);
    } else {
      var init := parts[..|parts| - 1];
      SplitJoin(init, sep);
      SplitAfterSep(Join(init, sep), parts[|parts| - 1], sep);
      assert init + [parts[|parts| - 1]] == parts;
    }
  }

  // ---------------------------------------------------------------------------
  // trim
  // ---------------------------------------------------------------------------

  /** The white space and line terminators `trim()` removes: tab, line feed, vertical
      tab, form feed, carriage return, space, no-break space, the byte order mark, the
      line and paragraph separators and the other space separators of Unicode. */
  predicate IsSpace(c: char)
  {
    ('\t' <= c <= '\r') || c == ' ' || c == '\U{00A0}' || c == '\U{1680}' ||
    ('\U{2000}' <= c <= '\U{200A}') || c == '\U{2028}' || c == '\U{2029}' || c == '\U{202F}' ||
    c == '\U{205F}' || c == '\U{3000}' || c == '\U{FEFF}'
  }

  /** The first index from i on that does not hold white space. */
  function SkipSpaces(s: string, i: nat): (k: nat)
    requires i <= |s|
    ensures i <= k <= |s|
    ensures forall m :: i <= m < k ==> IsSpace(s[m])
    ensures k < |s| ==> !IsSpace(s[k])
    decreases |s| - i
  {
    if i < |s| && IsSpace(s[i]) then SkipSpaces(s, i + 1) else i
  }

  /** The end of s[..j] once the white space at its end is dropped. */
  function SkipSpacesBack(s: string, j: nat): (k: nat)
    requires j <= |s|
    ensures k <= j
    ensures forall m :: k <= m < j ==> IsSpace(s[m])
    ensures k > 0 ==> !IsSpace(s[k - 1])
  {
    if j > 0 && IsSpace(s[j - 1]) then SkipSpacesBack(s, j - 1) else j
  }

  /** `s.trim()`: the white space at both ends removed, nothing else. */
  function Trim(s: string): (r: string)
    ensures |r| <= |s|
    ensures forall c :: c in r ==> c in s
    ensures r != [] ==> !IsSpace(r[0]) && !IsSpace(r[|r| - 1])
  {
    var a := SkipSpaces(s, 0);
    var b := SkipSpacesBack(s, |s|);
    if a < b then s[a..b] else []
  }

  /** A string that neither starts nor ends with white space is its own trim. */
  lemma TrimNothing(s: string)
    requires s == [] || (!IsSpace(s[0]) && !IsSpace(s[|s| - 1]))
    ensures Trim(s) == s
  {
    assert s[0..|s|] == s;
  }

  /** Trimming twice is trimming once. */
  lemma TrimIdempotent(s: string)
    ensures Trim(Trim(s)) == Trim(s)
  {
    TrimNothing(Trim(s));
  }

  // ---------------------------------------------------------------------------
  // The comma-separated tokens
  // ---------------------------------------------------------------------------

  /** A token as the parsers see it: no comma, no white space at either end. */
  predicate Bare(t: string)
  {
    ',' !in t && (t != [] ==> !IsSpace(t[0]) && !IsSpace(t[|t| - 1]))
  }

  predicate AllBare(ts: seq<string>)
  {
    forall j :: 0 <= j < |ts| ==> Bare(ts[j])
  }

  function TrimAll(parts: seq<string>): (r: seq<string>)
    ensures |r| == |parts| && forall j :: 0 <= j < |parts| ==> r[j] == Trim(parts[j])
    ensures (forall j :: 0 <= j < |parts| ==> ',' !in parts[j]) ==> AllBare(r)
  {
    seq(|parts|, j requires 0 <= j < |parts| => Trim(parts[j]))
  }

  /** `filter(Boolean)` on strings: the non-empty ones, in order. */
  function NonEmpty(parts: seq<string>): (r: seq<string>)
    ensures |r| <= |parts|
    ensures forall j :: 0 <= j < |r| ==> r[j] != [] && r[j] in parts
    ensures AllBare(parts) ==> AllBare(r)
  {
    if parts == [] then []
    else NonEmpty(parts[..|parts| - 1]) + (if parts[|parts| - 1] == [] then [] else [parts[|parts| - 1]])
  }

  /** `String(text).split(',').map(s => s.trim()).filter(Boolean)`. */
  function Tokens(text: string): (toks: seq<string>)
    ensures AllBare(toks) && forall j :: 0 <= j < |toks| ==> toks[j] != []
  {
    NonEmpty(TrimAll(Split(text, ',')))
  }

  lemma {:induction false} NonEmptyKeepsAll(parts: seq<string>)
    requires forall j :: 0 <= j < |parts| ==> parts[j] != []
    ensures NonEmpty(parts) == parts
    decreases |parts|
  {
    if parts != [] {
      NonEmptyKeepsAll(parts[..|parts| - 1]);
    }
  }

  /** The tokens are read back from a comma-joined list of tokens. */
  lemma TokensOfJoin(toks: seq<string>)
    requires |toks| >= 1
    requires AllBare(toks) && forall j :: 0 <= j < |toks| ==> toks[j] != []
    ensures Tokens(Join(toks, ',')) == toks
  {
    SplitJoin(toks, ',');
    TrimAllBare(toks);
    NonEmptyKeepsAll(toks);
  }

  /** Bare tokens are their own trims. */
  lemma TrimAllBare(toks: seq<string>)
    requires AllBare(toks)
    ensures TrimAll(toks) == toks
  {
    forall j | 0 <= j < |toks|
      ensures Trim(toks[j]) == toks[j]
    {
      TrimNothing(toks[j]);
    }
  }

  // ---------------------------------------------------------------------------
  // Number and its decimal rendering
  // ---------------------------------------------------------------------------

  predicate IsDigit(c: char)
  {
    '0' <= c <= '9'
  }

  predicate AllDigits(s: string)
  {
    forall k :: 0 <= k < |s| ==> IsDigit(s[k])
  }

  function DigitsValue(s: string): nat
    requires AllDigits(s)
  {
    if s == [] then 0 else DigitsValue(s[..|s| - 1]) * 10 + (s[|s| - 1] as int - '0' as int)
  }

  /** `Number(token)` for a token without white space at its ends: the empty string is
      0, an optionally signed run of decimal digits is that integer, anything else NaN. */
  function NumberOfToken(t: string): (n: Num)
    ensures |t| >= 1 && AllDigits(t) ==> n == Int(DigitsValue(t))
    ensures |t| >= 2 && t[0] == '-' && AllDigits(t[1..]) ==> n == Int(0 - DigitsValue(t[1..]))
    ensures n.Int? && t != [] ==> AllDigits(t) || (|t| >= 2 && (t[0] == '-' || t[0] == '+') && AllDigits(t[1..]))
  {
    if t == [] then Int(0)
    else if AllDigits(t) then Int(DigitsValue(t))
    else if |t| >= 2 && t[0] == '-' && AllDigits(t[1..]) then Int(0 - DigitsValue(t[1..]))
    else if |t| >= 2 && t[0] == '+' && AllDigits(t[1..]) then Int(DigitsValue(t[1..]))
    else NaN
  }

  /** `Number(s)`, which ignores white space at both ends. */
  function Number(s: string): (n: Num)
    ensures Trim(s) == [] ==> n == Int(0)
    ensures |Trim(s)| >= 1 && AllDigits(Trim(s)) ==> n == Int(DigitsValue(Trim(s)))
    ensures |Trim(s)| >= 2 && Trim(s)[0] == '-' && AllDigits(Trim(s)[1..]) ==> n == Int(0 - DigitsValue(Trim(s)[1..]))
    ensures n.Int? && Trim(s) != [] ==>
      AllDigits(Trim(s)) || (|Trim(s)| >= 2 && (Trim(s)[0] == '-' || Trim(s)[0] == '+') && AllDigits(Trim(s)[1..]))
  {
    NumberOfToken(Trim(s))
  }

  /** On a string already trimmed, `Number` is `NumberOfToken`: the parsers only ever
      apply `Number` to trimmed text. */
  lemma NumberOfTrimmed(s: string)
    requires s == [] || (!IsSpace(s[0]) && !IsSpace(s[|s| - 1]))
    ensures Number(s) == NumberOfToken(s)
  {
    TrimNothing(s);
  }

  function DigitChar(d: nat): (c: char)
    requires d < 10
    ensures IsDigit(c) && c as int - '0' as int == d
  {
    ('0' as int + d) as char
  }

  /** The decimal digits of n, without leading zeros. */
  function ShowNat(n: nat): (s: string)
    ensures |s| >= 1 && AllDigits(s)
  {
    if n < 10 then [DigitChar(n)] else ShowNat(n / 10) + [DigitChar(n % 10)]
  }

  lemma {:induction false} ShowNatValue(n: nat)
    ensures DigitsValue(ShowNat(n)) == n
    decreases n
  {
    if n >= 10 {
      ShowNatValue(n / 10);
      var s := ShowNat(n);
      assert s[..|s| - 1] == ShowNat(n / 10);
    }
  }

  /** `String(n)` of an integer. */
  function Show(n: int): (s: string)
    ensures |s| >= 1 && Bare(s)
  {
    if n < 0 then "-" + ShowNat(-n) else ShowNat(n)
  }

  /** `Number` reads back every integer `String` renders. */
  lemma NumberShow(n: int)
    ensures NumberOfToken(Show(n)) == Int(n) && Number(Show(n)) == Int(n)
  {
    NumberOfTrimmed(Show(n));
    if n < 0 {
      NumberShowNegative(n);
    } else {
      ShowNatValue(n);
      assert NumberOfToken(Show(n)) == Int(DigitsValue(ShowNat(n)));
    }
  }

  lemma NumberShowNegative(n: int)
    requires n < 0
    ensures NumberOfToken(Show(n)) == Int(n)
  {
    var t := Show(n);
    ShowNatValue(-n);
    assert t[1..] == ShowNat(-n);
    assert !AllDigits(t) by {
      assert !IsDigit(t[0]);
    }
  }

  /** `toUpperCase()` on ASCII letters; other characters are kept. */
  function Upper(s: string): (r: string)
    ensures |r| == |s|
    ensures forall k :: 0 <= k < |s| ==> r[k] == if 'a' <= s[k] <= 'z' then (s[k] as int - 32) as char else s[k]
  {
    seq(|s|, k requires 0 <= k < |s| => if 'a' <= s[k] <= 'z' then (s[k] as int - 32) as char else s[k])
  }

  /** Every spelling of ON in any letter case reads as ON, and only those. */
  lemma UpperOn(t: string)
    ensures Upper(t) == "ON" <==> t in {"ON", "On", "oN", "on"}
  {
    if Upper(t) == "ON" {
      assert |t| == 2;
      assert Upper(t)[0] == 'O' && Upper(t)[1] == 'N';
      assert t[0] == 'O' || t[0] == 'o';
      assert t[1] == 'N' || t[1] == 'n';
      assert t == [t[0], t[1]];
    } else {
      forall u | u in {"ON", "On", "oN", "on"} ensures Upper(u) == "ON" {
        assert Upper(u)[0] == 'O' && Upper(u)[1] == 'N';
      }
    }
  }
}
