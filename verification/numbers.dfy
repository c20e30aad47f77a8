/**
 * Lenient number parsing (`to_float`): a missing cell is 0, a numeric cell is itself,
 * and a text cell is cleaned (stripped, spaces deleted, commas turned into dots) and
 * searched for the first number matching  [-+]?\d*\.?\d+(?:[eE][-+]?\d+)?
 * Values are exact reals; the float rounding of `float()` is not modelled.
 */
module Numbers {
  import opened Wrappers
  import opened Text

  predicate IsDigit(c: char) { '0' <= c <= '9' }
  predicate IsSign(c: char) { c == '+' || c == '-' }
  predicate IsExpMark(c: char) { c == 'e' || c == 'E' }

  predicate AllDigits(t: string) {
    forall k :: 0 <= k < |t| ==> IsDigit(t[k])
  }

  predicate HasDigit(t: string) {
    exists k :: 0 <= k < |t| && IsDigit(t[k])
  }

  // ---------------------------------------------------------------------------
  // The token language, stated declaratively on spans `s[i..j]` of a string.
  // ---------------------------------------------------------------------------

  /** `s[i..j]` matches `\d*\.?\d+`: digits with at most one dot, ending in a digit. */
  predicate MantissaSpan(s: string, i: nat, j: nat) {
    && i < j <= |s|
    && IsDigit(s[j - 1])
    && (forall k :: i <= k < j ==> IsDigit(s[k]) || s[k] == '.')
    && (forall k, l :: i <= k < l < j && s[k] == '.' ==> s[l] != '.')
  }

  /** `s[i..j]` matches `[eE][-+]?\d+`. */
  predicate ExponentSpan(s: string, i: nat, j: nat) {
    && i + 1 < j <= |s|
    && IsExpMark(s[i])
    && var d := if IsSign(s[i + 1]) then i + 2 else i + 1;
       d < j && forall k :: d <= k < j ==> IsDigit(s[k])
  }

  /** `s[i..j]` matches `\d*\.?\d+(?:[eE][-+]?\d+)?`. */
  predicate UnsignedSpan(s: string, i: nat, j: nat) {
    exists k: nat :: i <= k <= j && MantissaSpan(s, i, k) && (k == j || ExponentSpan(s, k, j))
  }

  /** `s[i..j]` matches the whole pattern, optional sign included. */
  predicate NumeralSpan(s: string, i: nat, j: nat) {
    if i < j <= |s| && IsSign(s[i]) then UnsignedSpan(s, i + 1, j) else UnsignedSpan(s, i, j)
  }

  /** The `n` characters at `p` form a numeral. */
  predicate NumeralAt(s: string, p: nat, n: nat) {
    p + n <= |s| && NumeralSpan(s, p, p + n)
  }

  // ---------------------------------------------------------------------------
  // The scanner: the regex engine's greedy, backtracking match, position by position.
  // ---------------------------------------------------------------------------

  /** Length of the run of digits starting at `i`. */
  function DigitRun(s: string, i: nat): (n: nat)
    requires i <= |s|
    ensures i + n <= |s|
    decreases |s| - i
  {
    if i < |s| && IsDigit(s[i]) then 1 + DigitRun(s, i + 1) else 0
  }

  /** The run holds only digits and stops at the end or at a character that is not one. */
  lemma {:induction false} DigitRunSpec(s: string, i: nat)
    requires i <= |s|
    ensures forall k :: i <= k < i + DigitRun(s, i) ==> IsDigit(s[k])
    ensures i + DigitRun(s, i) == |s| || !IsDigit(s[i + DigitRun(s, i)])
    decreases |s| - i
  {
    if i < |s| && IsDigit(s[i]) {
      DigitRunSpec(s, i + 1);
    }
  }

  /**
   * Length of the match of `\d*\.?\d+` at `q`: all the digits, then a dot and its
   * digits when at least one digit follows the dot; failing that, the digits alone.
   */
  function MantissaAt(s: string, q: nat): (r: Option<nat>)
    requires q <= |s|
    ensures r.Some? ==> 0 < r.value && q + r.value <= |s|
  {
    var a := DigitRun(s, q);
    if q + a < |s| && s[q + a] == '.' && DigitRun(s, q + a + 1) > 0 then
      Some(a + 1 + DigitRun(s, q + a + 1))
    else if a > 0 then
      Some(a)
    else
      None
  }

  /** Length of the optional exponent group at `k`; 0 when it does not match. */
  function ExponentAt(s: string, k: nat): (n: nat)
    requires k <= |s|
    ensures k + n <= |s|
  {
    if k < |s| && IsExpMark(s[k]) then
      var j := if k + 1 < |s| && IsSign(s[k + 1]) then k + 2 else k + 1;
      var d := DigitRun(s, j);
      if d > 0 then j + d - k else 0
    else
      0
  }

  /** Length of the match of the whole pattern at `p`, if it matches there. */
  function MatchAt(s: string, p: nat): (r: Option<nat>)
    requires p <= |s|
    ensures r.Some? ==> p + r.value <= |s|
  {
    var q := if p < |s| && IsSign(s[p]) then p + 1 else p;
    match MantissaAt(s, q)
    case None => None
    case Some(m) => Some(q - p + m + ExponentAt(s, q + m))
  }

  // ---------------------------------------------------------------------------
  // The scanner agrees with the language: what it matches is a numeral, and it
  // matches the longest numeral there is at its position.
  // ---------------------------------------------------------------------------

  lemma {:induction false} DigitRunCovers(s: string, i: nat, j: nat)
    requires i <= j <= |s|
    requires forall k :: i <= k < j ==> IsDigit(s[k])
    ensures j - i <= DigitRun(s, i)
  {
    DigitRunSpec(s, i);
  }

  /** The greedy mantissa is a mantissa. */
  lemma {:induction false} MantissaSound(s: string, q: nat)
    requires q <= |s| && MantissaAt(s, q).Some?
    ensures MantissaSpan(s, q, q + MantissaAt(s, q).value)
  {
    var a := DigitRun(s, q);
    DigitRunSpec(s, q);
    if q + a < |s| && s[q + a] == '.' && DigitRun(s, q + a + 1) > 0 {
      DigitRunSpec(s, q + a + 1);
      var j := q + a + 1 + DigitRun(s, q + a + 1);
      forall k | q <= k < j ensures (IsDigit(s[k]) || s[k] == '.') && (s[k] == '.' ==> k == q + a) {
      }
    }
  }

  /** No mantissa at `q` is longer than the greedy one. */
  lemma {:induction false} MantissaMaximal(s: string, q: nat, j: nat)
    requires MantissaSpan(s, q, j)
    ensures MantissaAt(s, q).Some? && j - q <= MantissaAt(s, q).value
  {
    if d :| q <= d < j && s[d] == '.' {
      DigitRunCovers(s, q, d);
      DigitRunSpec(s, q);
      assert DigitRun(s, q) == d - q;
      DigitRunCovers(s, d + 1, j);
    } else {
      DigitRunCovers(s, q, j);
    }
  }

  /** A non-empty greedy exponent is an exponent. */
  lemma {:induction false} ExponentSound(s: string, k: nat)
    requires k <= |s| && ExponentAt(s, k) > 0
    ensures ExponentSpan(s, k, k + ExponentAt(s, k))
  {
    DigitRunSpec(s, if k + 1 < |s| && IsSign(s[k + 1]) then k + 2 else k + 1);
  }

  /** No exponent at `k` is longer than the greedy one. */
  lemma {:induction false} ExponentMaximal(s: string, k: nat, j: nat)
    requires ExponentSpan(s, k, j)
    ensures j - k <= ExponentAt(s, k)
  {
    var d := if IsSign(s[k + 1]) then k + 2 else k + 1;
    DigitRunCovers(s, d, j);
  }

  /** The greedy mantissa and exponent at `q` together form an unsigned numeral. */
  lemma {:induction false} UnsignedSound(s: string, q: nat)
    requires q <= |s| && MantissaAt(s, q).Some?
    ensures UnsignedSpan(s, q, q + MantissaAt(s, q).value + ExponentAt(s, q + MantissaAt(s, q).value))
  {
    var m := q + MantissaAt(s, q).value;
    var e := ExponentAt(s, m);
    MantissaSound(s, q);
    if e > 0 {
      ExponentSound(s, m);
    }
    assert MantissaSpan(s, q, m) && (m == m + e || ExponentSpan(s, m, m + e));
  }

  /** No unsigned numeral at `q` is longer than the greedy mantissa and exponent there. */
  lemma {:induction false} UnsignedMaximal(s: string, q: nat, j: nat)
    requires UnsignedSpan(s, q, j)
    ensures MantissaAt(s, q).Some?
    ensures j - q <= MantissaAt(s, q).value + ExponentAt(s, q + MantissaAt(s, q).value)
  {
    var k: nat :| q <= k <= j && MantissaSpan(s, q, k) && (k == j || ExponentSpan(s, k, j));
    MantissaMaximal(s, q, k);
    if k < j {
      MantissaSound(s, q);
      var m := q + MantissaAt(s, q).value;
      assert m == k by {
        assert IsExpMark(s[k]);
      }
      ExponentMaximal(s, k, j);
    }
  }

  /** What the scanner matches at `p` is a numeral. */
  lemma {:induction false} MatchSound(s: string, p: nat)
    requires p <= |s| && MatchAt(s, p).Some?
    ensures NumeralAt(s, p, MatchAt(s, p).value)
  {
    var q := if p < |s| && IsSign(s[p]) then p + 1 else p;
    UnsignedSound(s, q);
  }

  /** Every numeral at `p` is matched by the scanner, and none is longer than its match. */
  lemma {:induction false} MatchMaximal(s: string, p: nat, n: nat)
    requires p <= |s|
    ensures NumeralAt(s, p, n) ==> MatchAt(s, p).Some? && n <= MatchAt(s, p).value
  {
    if NumeralAt(s, p, n) {
      UnsignedSpanNonEmpty(s, p, p + n);
      var q := if p < |s| && IsSign(s[p]) then p + 1 else p;
      assert UnsignedSpan(s, q, p + n);
      UnsignedMaximal(s, q, p + n);
      var m := MantissaAt(s, q).value;
      assert MatchAt(s, p) == Some(q - p + m + ExponentAt(s, q + m));
    }
  }

  /** A numeral is never empty. */
  lemma {:induction false} UnsignedSpanNonEmpty(s: string, i: nat, j: nat)
    ensures UnsignedSpan(s, i, j) ==> i < j
  {
  }

  /** A single digit is a numeral. */
  lemma {:induction false} DigitIsNumeral(s: string, p: nat)
    requires p < |s| && IsDigit(s[p])
    ensures NumeralAt(s, p, 1)
  {
    assert MantissaSpan(s, p, p + 1) && p + 1 == p + 1;
  }

  /** Every numeral holds a digit. */
  lemma {:induction false} NumeralAtHasDigit(s: string, p: nat, n: nat)
    requires NumeralAt(s, p, n)
    ensures HasDigit(s)
  {
    var q := if p < p + n && IsSign(s[p]) then p + 1 else p;
    var k: nat :| q <= k <= p + n && MantissaSpan(s, q, k) && (k == p + n || ExponentSpan(s, k, p + n));
    assert IsDigit(s[k - 1]);
  }

  // ---------------------------------------------------------------------------
  // The search.
  // ---------------------------------------------------------------------------

  /** What `re.search` reports: a start position and a length. */
  datatype Span = Span(start: nat, len: nat)

  /**
   * `re.search` from `from` on: the first position where the scanner matches, and
   * the scanner's match there; nothing when it matches nowhere.
   */
  function FindNumeral(s: string, from: nat): (r: Option<Span>)
    requires from <= |s|
    ensures r.Some? ==> r.value.start + r.value.len <= |s|
    decreases |s| - from
  {
    match MatchAt(s, from)
    case Some(n) => Some(Span(from, n))
    case None => if from == |s| then None else FindNumeral(s, from + 1)
  }

  /** The search stops at the first position where the scanner matches. */
  lemma {:induction false} FindNumeralScans(s: string, from: nat)
    requires from <= |s|
    ensures var r := FindNumeral(s, from);
      r.Some? ==> from <= r.value.start <= |s| && MatchAt(s, r.value.start) == Some(r.value.len)
    ensures var r := FindNumeral(s, from);
      forall p :: from <= p <= |s| && (r.None? || p < r.value.start) ==> MatchAt(s, p).None?
    decreases |s| - from
  {
    if MatchAt(s, from).None? && from < |s| {
      FindNumeralScans(s, from + 1);
    }
  }

  /**
   * What `re.search` reports from `from` on is the leftmost position holding a
   * numeral and the longest numeral there; it reports nothing only when no
   * numeral occurs at all.
   */
  lemma {:induction false} FindNumeralSpec(s: string, from: nat)
    requires from <= |s|
    ensures var r := FindNumeral(s, from);
      r.Some? ==>
        && from <= r.value.start
        && NumeralAt(s, r.value.start, r.value.len)
        && (forall n: nat :: NumeralAt(s, r.value.start, n) ==> n <= r.value.len)
        && (forall p: nat, n: nat :: from <= p < r.value.start ==> !NumeralAt(s, p, n))
    ensures FindNumeral(s, from).None? ==> forall p: nat, n: nat :: from <= p ==> !NumeralAt(s, p, n)
  {
    FindNumeralScans(s, from);
    var r := FindNumeral(s, from);
    if r.Some? {
      var sp := r.value;
      MatchSound(s, sp.start);
      forall n: nat ensures NumeralAt(s, sp.start, n) ==> n <= sp.len {
        MatchMaximal(s, sp.start, n);
      }
    }
    forall p: nat, n: nat | from <= p && (r.None? || p < r.value.start) ensures !NumeralAt(s, p, n) {
      if p <= |s| {
        MatchMaximal(s, p, n);
      }
    }
  }

  /** The span `re.search` reports is the unique leftmost, longest numeral. */
  lemma {:induction false} FindNumeralUnique(s: string, p: nat, n: nat)
    requires NumeralAt(s, p, n)
    requires forall m: nat :: NumeralAt(s, p, m) ==> m <= n
    requires forall q: nat, m: nat :: q < p ==> !NumeralAt(s, q, m)
    ensures FindNumeral(s, 0) == Some(Span(p, n))
  {
    FindNumeralSpec(s, 0);
    var r := FindNumeral(s, 0);
    assert r.Some? by {
      assert r.None? ==> !NumeralAt(s, p, n);
    }
    var sp := r.value;
    assert sp.start >= p by {
      assert sp.start < p ==> !NumeralAt(s, sp.start, sp.len);
    }
    assert sp.start <= p by {
      assert p < sp.start ==> !NumeralAt(s, p, n);
    }
  }

  /** `re.search` finds something exactly when the string holds a digit. */
  lemma {:induction false} FindNumeralIffDigit(s: string)
    ensures FindNumeral(s, 0).Some? <==> HasDigit(s)
  {
    if HasDigit(s) {
      var k :| 0 <= k < |s| && IsDigit(s[k]);
      DigitIsNumeral(s, k);
      FindNumeralSpec(s, 0);
    }
    if FindNumeral(s, 0).Some? {
      FindNumeralSpec(s, 0);
      var sp := FindNumeral(s, 0).value;
      NumeralAtHasDigit(s, sp.start, sp.len);
    }
  }

  // ---------------------------------------------------------------------------
  // The value `float()` gives a numeral, exactly.
  // ---------------------------------------------------------------------------

  function DigitValue(c: char): nat {
    if IsDigit(c) then c as int - '0' as int else 0
  }

  /** The number the decimal digits `s[i..j]` denote. */
  function DigitsValue(s: string, i: nat, j: nat): nat
    requires i <= j <= |s|
    decreases j - i
  {
    if i == j then 0 else 10 * DigitsValue(s, i, j - 1) + DigitValue(s[j - 1])
  }

  /** Digits that agree character by character denote the same number. */
  lemma {:induction false} DigitsValueShift(s: string, i: nat, t: string, h: nat, n: nat)
    requires i + n <= |s| && h + n <= |t|
    requires forall k :: i <= k < i + n ==> s[k] == t[k - i + h]
    ensures DigitsValue(s, i, i + n) == DigitsValue(t, h, h + n)
  {
    if n > 0 {
      DigitsValueShift(s, i, t, h, n - 1);
      assert s[i + n - 1] == t[h + n - 1];
    }
  }

  /** `x` times ten to the power `e`, for either sign of `e`. */
  function Scale(x: real, e: int): real
    decreases if e >= 0 then e else -e
  {
    if e == 0 then x
    else if e > 0 then 10.0 * Scale(x, e - 1)
    else Scale(x, e + 1) / 10.0
  }

  /** First position in `[i, j)` holding an exponent mark, or `j`. */
  function ExpMarkFrom(s: string, i: nat, j: nat): (k: nat)
    requires i <= j <= |s|
    ensures i <= k <= j
    decreases j - i
  {
    if i == j || IsExpMark(s[i]) then i else ExpMarkFrom(s, i + 1, j)
  }

  /** First position in `[i, j)` holding a dot, or `j`. */
  function DotFrom(s: string, i: nat, j: nat): (k: nat)
    requires i <= j <= |s|
    ensures i <= k <= j
    decreases j - i
  {
    if i == j || s[i] == '.' then i else DotFrom(s, i + 1, j)
  }

  /** Among digits, neither an exponent mark nor a dot is found. */
  lemma {:induction false} DigitsHaveNoMarks(s: string, i: nat, j: nat)
    requires i <= j <= |s|
    requires forall k :: i <= k < j ==> IsDigit(s[k])
    ensures ExpMarkFrom(s, i, j) == j && DotFrom(s, i, j) == j
    decreases j - i
  {
    if i < j {
      DigitsHaveNoMarks(s, i + 1, j);
    }
  }

  /** The value of the exponent digits `s[i..j]` with their optional sign. */
  function ExponentValue(s: string, i: nat, j: nat): int
    requires i <= j <= |s|
  {
    if i < j && IsSign(s[i]) then
      (if s[i] == '-' then -(DigitsValue(s, i + 1, j) as int) else DigitsValue(s, i + 1, j))
    else
      DigitsValue(s, i, j)
  }

  /**
   * The exact value of the numeral `s[i..j]`: its sign, its integer digits, its
   * fraction digits scaled down by their count, and its decimal exponent.
   */
  function NumeralValue(s: string, i: nat, j: nat): real
    requires i <= j <= |s|
  {
    var q := if i < j && IsSign(s[i]) then i + 1 else i;
    var k := ExpMarkFrom(s, q, j);
    var d := DotFrom(s, q, k);
    var whole := DigitsValue(s, q, d) as real;
    var fraction := if d < k then Scale(DigitsValue(s, d + 1, k) as real, d + 1 - k) else 0.0;
    var exponent := if k < j then ExponentValue(s, k + 1, j) else 0;
    var magnitude := Scale(whole + fraction, exponent);
    if i < j && s[i] == '-' then -magnitude else magnitude
  }

  // ---------------------------------------------------------------------------
  // to_float
  // ---------------------------------------------------------------------------

  /** A spreadsheet cell as the reader hands it over: empty (NaN), numeric, or text. */
  datatype Cell = Missing | Number(x: real) | Str(s: string)

  /** `s.replace(" ", "")`. */
  function RemoveSpaces(s: string): (r: string)
    ensures ' ' !in r
    ensures forall c :: c != ' ' ==> (c in r <==> c in s)
    ensures ' ' !in s ==> r == s
  {
    if |s| == 0 then [] else
      var rest := RemoveSpaces(s[1..]);
      assert s == [s[0]] + s[1..];
      if s[0] == ' ' then rest else [s[0]] + rest
  }

  /** Removing blanks from one character: a blank goes, anything else stays. */
  lemma RemoveSpacesChar(c: char)
    ensures RemoveSpaces([c]) == if c == ' ' then [] else [c]
  {
    assert [c][1..] == [];
  }

  /**
   * Removing blanks works piece by piece, so with `RemoveSpacesChar` it keeps every
   * other character, in order and as often as it occurs.
   */
  lemma {:induction false} RemoveSpacesConcat(a: string, b: string)
    ensures RemoveSpaces(a + b) == RemoveSpaces(a) + RemoveSpaces(b)
    decreases |a|
  {
    if a == [] {
      assert a + b == b;
    } else {
      assert (a + b)[0] == a[0];
      assert (a + b)[1..] == a[1..] + b;
      RemoveSpacesConcat(a[1..], b);
      var head := if a[0] == ' ' then [] else [a[0]];
      assert head + (RemoveSpaces(a[1..]) + RemoveSpaces(b))
        == (head + RemoveSpaces(a[1..])) + RemoveSpaces(b);
    }
  }

  /** `s.replace(",", ".")`. */
  function CommasToDots(s: string): (r: string)
    ensures |r| == |s|
    ensures ',' !in r
    ensures forall k :: 0 <= k < |s| && s[k] != ',' ==> r[k] == s[k]
    ensures forall k :: 0 <= k < |s| && s[k] == ',' ==> r[k] == '.'
    ensures ',' !in s ==> r == s
  {
    seq(|s|, k requires 0 <= k < |s| => if s[k] == ',' then '.' else s[k])
  }

  /** The text `to_float` searches: stripped, spaces deleted, commas made dots. */
  function Clean(s: string): string {
    CommasToDots(RemoveSpaces(Strip(s)))
  }

  /** Cleaning neither adds nor removes digits. */
  lemma {:induction false} CleanKeepsDigits(s: string)
    ensures HasDigit(Clean(s)) <==> HasDigit(s)
  {
    var t := Strip(s);
    var b := RemoveSpaces(t);
    StripKeeps(s);
    assert forall c :: IsDigit(c) ==> !IsSpace(c);
    SameDigits(s, t);
    SameDigits(t, b);
    DotsKeepDigits(b);
  }

  /** Strings holding the same digit characters both hold a digit or both do not. */
  lemma {:induction false} SameDigits(x: string, y: string)
    requires forall c :: IsDigit(c) ==> (c in x <==> c in y)
    ensures HasDigit(x) <==> HasDigit(y)
  {
    if HasDigit(x) {
      var k :| 0 <= k < |x| && IsDigit(x[k]);
      assert x[k] in y;
    }
    if HasDigit(y) {
      var k :| 0 <= k < |y| && IsDigit(y[k]);
      assert y[k] in x;
    }
  }

  /** Turning commas into dots touches no digit. */
  lemma {:induction false} DotsKeepDigits(b: string)
    ensures HasDigit(CommasToDots(b)) <==> HasDigit(b)
  {
    var c := CommasToDots(b);
    forall k | 0 <= k < |b| ensures IsDigit(c[k]) <==> IsDigit(b[k]) {
    }
  }

  /** `to_float`. */
  function ToFloat(c: Cell): (r: real)
    ensures c.Missing? ==> r == 0.0
    ensures c.Number? ==> r == c.x
    ensures c.Str? && !HasDigit(c.s) ==> r == 0.0
  {
    match c
    case Missing => 0.0
    case Number(x) => x
    case Str(s) =>
      CleanKeepsDigits(s);
      FindNumeralIffDigit(Clean(s));
      SearchValue(Clean(s))
  }

  /** `float(m.group(0)) if m else 0.0` for the match of `re.search` on `t`. */
  function SearchValue(t: string): real {
    match FindNumeral(t, 0)
    case None => 0.0
    case Some(sp) => NumeralValue(t, sp.start, sp.start + sp.len)
  }

  /** `SearchValue` when the search succeeds with a known span. */
  lemma {:induction false} SearchValueAt(t: string, p: nat, n: nat)
    requires p + n <= |t|
    requires FindNumeral(t, 0) == Some(Span(p, n))
    ensures SearchValue(t) == NumeralValue(t, p, p + n)
  {
  }

  /**
   * `to_float` on text is the exact value of the leftmost numeral of the cleaned text,
   * taking the longest numeral at that position.
   */
  lemma {:induction false} ToFloatLeftmostLongest(s: string, p: nat, n: nat)
    requires NumeralAt(Clean(s), p, n)
    requires forall m: nat :: NumeralAt(Clean(s), p, m) ==> m <= n
    requires forall q: nat, m: nat :: q < p ==> !NumeralAt(Clean(s), q, m)
    ensures ToFloat(Str(s)) == NumeralValue(Clean(s), p, p + n)
  {
    SearchValueUnique(Clean(s), p, n);
  }

  lemma {:induction false} SearchValueUnique(t: string, p: nat, n: nat)
    requires NumeralAt(t, p, n)
    requires forall m: nat :: NumeralAt(t, p, m) ==> m <= n
    requires forall q: nat, m: nat :: q < p ==> !NumeralAt(t, q, m)
    ensures SearchValue(t) == NumeralValue(t, p, p + n)
  {
    FindNumeralUnique(t, p, n);
    SearchValueAt(t, p, n);
  }

  /** `to_float` on text is the search over the cleaned text. */
  lemma {:induction false} ToFloatOnText(s: string)
    ensures ToFloat(Str(s)) == SearchValue(Clean(s))
  {
  }

  /** A decimal comma reads as a decimal point, and blanks inside the number are ignored. */
  lemma {:induction false} ToFloatDecimalComma()
    ensures ToFloat(Str("1,5")) == 1.5
    ensures ToFloat(Str("1 ,5")) == 1.5
  {
    CleanDecimalComma();
    ToFloatOnText("1,5");
    ToFloatOnText("1 ,5");
    OnePointFive();
  }

  lemma {:induction false} CleanDecimalComma()
    ensures Clean("1,5") == "1.5"
    ensures Clean("1 ,5") == "1.5"
  {
    CleanComma();
    CleanBlankComma();
  }

  lemma {:induction false} CleanComma()
    ensures Clean("1,5") == "1.5"
  {
    var a := "1,5";
    StripUnique(a, 0, 3);
    assert a[0..3] == a;
    assert RemoveSpaces(a) == a;
    assert CommasToDots(a) == "1.5";
  }

  /** Text with no blank at either end and no space or comma is left as it is by cleaning. */
  lemma {:induction false} CleanFixes(s: string)
    requires IsStripped(s) && ' ' !in s && ',' !in s
    ensures Clean(s) == s
  {
    StripUnique(s, 0, |s|);
    assert s[0..|s|] == s;
  }

  lemma {:induction false} CleanBlankComma()
    ensures Clean("1 ,5") == "1.5"
  {
    var b := "1 ,5";
    StripUnique(b, 0, 4);
    assert b[0..4] == b;
    assert Strip(b) == b;
    RemoveBlank();
    CleanComma();
  }

  lemma {:induction false} RemoveBlank()
    ensures RemoveSpaces("1 ,5") == "1,5"
  {
    var b := "1 ,5";
    assert b[1..] == " ,5";
    assert b[1..][1..] == ",5";
    assert RemoveSpaces(",5") == ",5";
    assert RemoveSpaces(" ,5") == ",5";
  }

  /** "1.5" reads as 1.5. */
  lemma {:induction false} OnePointFive()
    ensures SearchValue("1.5") == 1.5
  {
    var t := "1.5";
    OnePointFiveIsNumeral();
    SearchValueUnique(t, 0, 3);
    OnePointFiveValue();
  }

  lemma {:induction false} OnePointFiveIsNumeral()
    ensures NumeralAt("1.5", 0, 3)
  {
    var t := "1.5";
    assert MantissaSpan(t, 0, 3) && 3 == 3;
  }

  lemma {:induction false} OnePointFiveValue()
    ensures NumeralValue("1.5", 0, 3) == 1.5
  {
    var t := "1.5";
    assert ExpMarkFrom(t, 0, 3) == 3 by {
      assert ExpMarkFrom(t, 2, 3) == 3;
    }
    assert DotFrom(t, 0, 3) == 1;
    assert DigitsValue(t, 0, 1) == 1;
    assert DigitsValue(t, 2, 3) == 5;
    assert Scale(5.0, -1) == 0.5 by { assert Scale(5.0, 0) == 5.0; }
    assert Scale(1.5, 0) == 1.5;
  }

  /** Only the first number is read: "1.2.3" gives 1.2. */
  lemma {:induction false} ToFloatFirstNumber()
    ensures ToFloat(Str("1.2.3")) == 1.2
  {
    var t := "1.2.3";
    CleanFirstNumber();
    ToFloatOnText(t);
    FirstNumberFound();
    SearchValueAt(t, 0, 3);
    OnePointTwoValue();
  }

  lemma {:induction false} CleanFirstNumber()
    ensures Clean("1.2.3") == "1.2.3"
  {
    CleanFixes("1.2.3");
  }

  lemma {:induction false} FirstNumberFound()
    ensures FindNumeral("1.2.3", 0) == Some(Span(0, 3))
  {
    var t := "1.2.3";
    assert DigitRun(t, 0) == 1 by { assert DigitRun(t, 1) == 0; }
    assert DigitRun(t, 2) == 1 by { assert DigitRun(t, 3) == 0; }
    assert MantissaAt(t, 0) == Some(3);
    assert ExponentAt(t, 3) == 0;
    assert MatchAt(t, 0) == Some(3);
  }

  lemma {:induction false} OnePointTwoValue()
    ensures NumeralValue("1.2.3", 0, 3) == 1.2
  {
    var t := "1.2.3";
    assert ExpMarkFrom(t, 0, 3) == 3 by {
      assert ExpMarkFrom(t, 2, 3) == 3;
    }
    assert DotFrom(t, 0, 3) == 1;
    assert DigitsValue(t, 0, 1) == 1;
    assert DigitsValue(t, 2, 3) == 2;
    assert Scale(2.0, -1) == 0.2 by { assert Scale(2.0, 0) == 2.0; }
    assert Scale(1.2, 0) == 1.2;
  }

  function DigitChar(d: nat): (c: char)
    requires d < 10
    ensures IsDigit(c) && DigitValue(c) == d
  {
    ('0' as int + d) as char
  }

  /** Python's `str(n)` for a natural number. */
  function NatToString(n: nat): (r: string)
    ensures |r| > 0 && AllDigits(r)
    ensures DigitsValue(r, 0, |r|) == n
    decreases n
  {
    if n < 10 then
      [DigitChar(n)]
    else
      var p := NatToString(n / 10);
      var r := p + [DigitChar(n % 10)];
      DigitsValueShift(r, 0, p, 0, |p|);
      r
  }

  /** Python's `str(i)` for an integer. */
  function IntToString(i: int): string {
    if i < 0 then "-" + NatToString(-i) else NatToString(i)
  }

  /** Every integer written in decimal reads back as itself. */
  lemma {:induction false} ToFloatReadsIntegers(i: int)
    ensures ToFloat(Str(IntToString(i))) == i as real
  {
    IntCleansToItself(i);
    ToFloatOnText(IntToString(i));
    IntSearchValue(i);
  }

  lemma {:induction false} IntSearchValue(i: int)
    ensures SearchValue(IntToString(i)) == i as real
  {
    IntIsNumeral(i);
    WholeNumeral(IntToString(i));
    IntNumeralValue(i);
  }

  /** A text that is one numeral from end to end reads as that numeral. */
  lemma {:induction false} WholeNumeral(t: string)
    requires NumeralAt(t, 0, |t|)
    ensures SearchValue(t) == NumeralValue(t, 0, |t|)
  {
    forall m: nat | NumeralAt(t, 0, m) ensures m <= |t| {
    }
    SearchValueUnique(t, 0, |t|);
  }

  lemma {:induction false} IntCleansToItself(i: int)
    ensures Clean(IntToString(i)) == IntToString(i)
  {
    var s := IntToString(i);
    var d := NatToString(if i < 0 then -i else i);
    var q := if i < 0 then 1 else 0;
    forall k | 0 <= k < |s| ensures IsDigit(s[k]) || s[k] == '-' {
      if k >= q {
        assert s[k] == d[k - q];
      }
    }
    assert s[|s| - 1] == d[|d| - 1];
    CleanFixes(s);
  }

  lemma {:induction false} IntIsNumeral(i: int)
    ensures NumeralAt(IntToString(i), 0, |IntToString(i)|)
  {
    var s := IntToString(i);
    var d := NatToString(if i < 0 then -i else i);
    var q := if i < 0 then 1 else 0;
    forall k | q <= k < |s| ensures IsDigit(s[k]) {
      assert s[k] == d[k - q];
    }
    assert !IsSign(s[0]) <==> i >= 0;
    assert MantissaSpan(s, q, |s|) && |s| == |s|;
  }

  lemma {:induction false} IntNumeralValue(i: int)
    ensures NumeralValue(IntToString(i), 0, |IntToString(i)|) == i as real
  {
    var s := IntToString(i);
    var d := NatToString(if i < 0 then -i else i);
    var q := if i < 0 then 1 else 0;
    forall k | q <= k < |s| ensures s[k] == d[k - q + 0] && IsDigit(s[k]) {
      assert s[k] == d[k - q];
    }
    assert !IsSign(s[0]) <==> i >= 0;
    DigitsHaveNoMarks(s, q, |s|);
    DigitsValueShift(s, q, d, 0, |d|);
    assert Scale(DigitsValue(s, q, |s|) as real + 0.0, 0) == (if i < 0 then -i else i) as real;
  }
}
