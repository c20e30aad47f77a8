/**
 * String helpers behind the Python built-ins the application relies on:
 * `str.strip()`, `str.endswith()`, `str.lower()` and the `in` operator on strings.
 */
module Text {

  /** The characters Python's `str.isspace()` accepts, which `str.strip()` removes. */
  predicate IsSpace(c: char) {
    || ('\t' <= c <= '\r')
    || ('\U{1C}' <= c <= '\U{1F}')
    || c == ' '
    || c == '\U{85}'
    || c == '\U{A0}'
    || c == '\U{1680}'
    || ('\U{2000}' <= c <= '\U{200A}')
    || c == '\U{2028}'
    || c == '\U{2029}'
    || c == '\U{202F}'
    || c == '\U{205F}'
    || c == '\U{3000}'
  }

  /** `s` has no whitespace at either end, as `str.strip()` leaves it. */
  predicate IsStripped(s: string) {
    s == [] || (!IsSpace(s[0]) && !IsSpace(s[|s| - 1]))
  }

  /** `s` with its leading whitespace removed. */
  function TrimStart(s: string): (r: string)
    ensures |r| <= |s|
    decreases |s|
  {
    if |s| > 0 && IsSpace(s[0]) then TrimStart(s[1..]) else s
  }

  /** TrimStart cuts off a prefix of whitespace and stops at a character that is not whitespace. */
  lemma {:induction false} TrimStartSpec(s: string)
    ensures var r := TrimStart(s);
      && r == s[|s| - |r|..]
      && (forall k :: 0 <= k < |s| - |r| ==> IsSpace(s[k]))
      && (r == [] || !IsSpace(r[0]))
    decreases |s|
  {
    if |s| > 0 && IsSpace(s[0]) {
      TrimStartSpec(s[1..]);
      var r := TrimStart(s);
      assert s[1..][|s| - 1 - |r|..] == s[|s| - |r|..];
      forall k | 0 <= k < |s| - |r| ensures IsSpace(s[k]) {
        if k > 0 {
          assert s[k] == s[1..][k - 1];
        }
      }
    }
  }

  /** `s` with its trailing whitespace removed. */
  function TrimEnd(s: string): (r: string)
    ensures |r| <= |s|
    decreases |s|
  {
    if |s| > 0 && IsSpace(s[|s| - 1]) then TrimEnd(s[..|s| - 1]) else s
  }

  /** TrimEnd cuts off a suffix of whitespace and stops at a character that is not whitespace. */
  lemma {:induction false} TrimEndSpec(s: string)
    ensures var r := TrimEnd(s);
      && r == s[..|r|]
      && (forall k :: |r| <= k < |s| ==> IsSpace(s[k]))
      && (r == [] || !IsSpace(r[|r| - 1]))
    decreases |s|
  {
    if |s| > 0 && IsSpace(s[|s| - 1]) {
      TrimEndSpec(s[..|s| - 1]);
      var r := TrimEnd(s);
      assert s[..|s| - 1][..|r|] == s[..|r|];
      forall k | |r| <= k < |s| ensures IsSpace(s[k]) {
        if k < |s| - 1 {
          assert s[k] == s[..|s| - 1][k];
        }
      }
    }
  }

  /** Python's `s.strip()`: the middle of `s` once the whitespace at both ends is gone. */
  function Strip(s: string): (r: string)
    ensures |r| <= |s|
  {
    TrimStart(TrimEnd(s))
  }

  /** What `Strip` returns has no whitespace at either end. */
  lemma StripStripped(s: string)
    ensures IsStripped(Strip(s))
  {
    var e := TrimEnd(s);
    TrimEndSpec(s);
    TrimStartSpec(e);
    StripEnds(e, TrimStart(e));
  }

  /** Trimming the front of a string that ends in non-whitespace leaves it stripped. */
  lemma StripEnds(e: string, r: string)
    requires e == [] || !IsSpace(e[|e| - 1])
    requires |r| <= |e| && r == e[|e| - |r|..]
    requires r == [] || !IsSpace(r[0])
    ensures IsStripped(r)
  {
    if r != [] {
      assert r[|r| - 1] == e[|e| - 1];
    }
  }

  /** Stripping removes only whitespace: it keeps every other character and adds none. */
  lemma StripKeeps(s: string)
    ensures forall c :: c in Strip(s) ==> c in s
    ensures forall c :: c in s && !IsSpace(c) ==> c in Strip(s)
  {
    forall c ensures (c in Strip(s) ==> c in s) && (c in s && !IsSpace(c) ==> c in Strip(s)) {
      StripKeepsChar(s, c);
    }
  }

  /** Stripping keeps `c` unless it is whitespace, and does not bring it in. */
  lemma StripKeepsChar(s: string, c: char)
    ensures c in Strip(s) ==> c in s
    ensures c in s && !IsSpace(c) ==> c in Strip(s)
  {
    var e := TrimEnd(s);
    TrimEndSpec(s);
    KeepsNonSpace(s, e, 0, c);
    TrimStartSpec(e);
    KeepsNonSpace(e, TrimStart(e), |e| - |TrimStart(e)|, c);
  }

  /** Cutting whitespace off both sides of `s` keeps `c` unless it is whitespace, and adds nothing. */
  lemma KeepsNonSpace(s: string, r: string, i: nat, c: char)
    requires i + |r| <= |s| && r == s[i..i + |r|]
    requires forall k :: 0 <= k < i ==> IsSpace(s[k])
    requires forall k :: i + |r| <= k < |s| ==> IsSpace(s[k])
    ensures c in r ==> c in s
    ensures c in s && !IsSpace(c) ==> c in r
  {
    if c in r {
      var k :| 0 <= k < |r| && r[k] == c;
      assert s[i + k] == c;
    }
    if c in s && !IsSpace(c) {
      var k :| 0 <= k < |s| && s[k] == c;
      assert r[k - i] == c;
    }
  }

  /**
   * `Strip` is characterised by its shape: whatever split of `s` into whitespace,
   * a stripped middle and whitespace is given, the middle is what `Strip` returns.
   */
  lemma StripUnique(s: string, i: nat, j: nat)
    requires i <= j <= |s|
    requires forall k :: 0 <= k < i ==> IsSpace(s[k])
    requires forall k :: j <= k < |s| ==> IsSpace(s[k])
    requires IsStripped(s[i..j])
    ensures Strip(s) == s[i..j]
  {
    if i == j {
      TrimEndUnique(s, 0);
    } else {
      assert s[i..j][j - 1 - i] == s[j - 1];
      TrimEndUnique(s, j);
      var e := s[..j];
      assert e[i] == s[i..j][0];
      TrimStartUnique(e, i);
      assert e[i..] == s[i..j];
    }
  }

  /** TrimEnd stops exactly at the last non-whitespace character. */
  lemma {:induction false} TrimEndUnique(s: string, j: nat)
    requires j <= |s|
    requires forall k :: j <= k < |s| ==> IsSpace(s[k])
    requires j == 0 || !IsSpace(s[j - 1])
    ensures TrimEnd(s) == s[..j]
    decreases |s|
  {
    if |s| > j {
      var t := s[..|s| - 1];
      assert IsSpace(s[|s| - 1]);
      assert forall k :: j <= k < |t| ==> t[k] == s[k];
      TrimEndUnique(t, j);
      assert t[..j] == s[..j];
    }
  }

  /** TrimStart stops exactly at the first non-whitespace character. */
  lemma {:induction false} TrimStartUnique(s: string, i: nat)
    requires i <= |s|
    requires forall k :: 0 <= k < i ==> IsSpace(s[k])
    requires i == |s| || !IsSpace(s[i])
    ensures TrimStart(s) == s[i..]
    decreases |s|
  {
    if i > 0 {
      var t := s[1..];
      assert IsSpace(s[0]);
      assert forall k :: 0 <= k < i - 1 ==> t[k] == s[k + 1];
      TrimStartUnique(t, i - 1);
      assert t[i - 1..] == s[i..];
    }
  }

  /** Python's `s.endswith(suffix)`. */
  predicate EndsWith(s: string, suffix: string) {
    |suffix| <= |s| && s[|s| - |suffix|..] == suffix
  }

  /**
   * Python's lower-casing of one character, for the ASCII and Latin-1 letters:
   * 'A'..'Z' and 'À'..'Þ' except the multiplication sign move 32 code points up.
   */
  function LowerChar(c: char): char {
    if 'A' <= c <= 'Z' || ('\U{C0}' <= c <= '\U{DE}' && c != '\U{D7}') then
      (c as int + 32) as char
    else
      c
  }

  /** Python's `s.lower()`, character by character. */
  function Lower(s: string): (r: string)
    ensures |r| == |s|
  {
    seq(|s|, k requires 0 <= k < |s| => LowerChar(s[k]))
  }

  /** Lower-casing is idempotent: a lower-cased string has no upper-case letter left. */
  lemma LowerIdempotent(s: string)
    ensures Lower(Lower(s)) == Lower(s)
  {
    forall k | 0 <= k < |s| ensures LowerChar(LowerChar(s[k])) == LowerChar(s[k]) {
      var c := s[k];
      if 'A' <= c <= 'Z' || ('\U{C0}' <= c <= '\U{DE}' && c != '\U{D7}') {
        assert LowerChar(c) as int == c as int + 32;
      }
    }
  }

  /** `needle` occurs in `hay` starting at index `i`. */
  predicate OccursAt(needle: string, hay: string, i: nat) {
    i + |needle| <= |hay| && hay[i..i + |needle|] == needle
  }

  /** Python's `needle in hay` for strings: some window of `hay` equals `needle`. */
  function Contains(hay: string, needle: string): (b: bool)
    ensures b <==> exists i: nat :: OccursAt(needle, hay, i)
    decreases |hay|
  {
    if |needle| > |hay| then
      false
    else if hay[..|needle|] == needle then
      assert OccursAt(needle, hay, 0);
      true
    else
      OccursShift(needle, hay);
      Contains(hay[1..], needle)
  }

  /** Past the first window, occurrences in `hay` are the occurrences in `hay[1..]`, shifted by one. */
  lemma OccursShift(needle: string, hay: string)
    requires |needle| <= |hay| && hay[..|needle|] != needle
    ensures (exists i: nat :: OccursAt(needle, hay, i)) <==> (exists i: nat :: OccursAt(needle, hay[1..], i))
  {
    forall i: nat | OccursAt(needle, hay[1..], i) ensures OccursAt(needle, hay, i + 1) {
      assert hay[1..][i..i + |needle|] == hay[i + 1..i + 1 + |needle|];
    }
    assert !OccursAt(needle, hay, 0) by { assert hay[..|needle|] == hay[0..|needle|]; }
    forall i: nat | OccursAt(needle, hay, i) ensures i > 0 && OccursAt(needle, hay[1..], i - 1) {
      assert hay[1..][i - 1..i - 1 + |needle|] == hay[i..i + |needle|];
    }
  }

  /** The empty string occurs in every string, so an empty query matches everything. */
  lemma ContainsEmpty(hay: string)
    ensures Contains(hay, "")
  {
    assert OccursAt("", hay, 0);
  }
}
