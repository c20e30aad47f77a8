/** Product-code normalisation, applied to catalog codes and to requested codes alike. */
module Codes {
  import opened Text

  /**
   * `norm_code`: strip the surrounding whitespace, then drop ONE trailing ".0"
   * (the rendering a spreadsheet gives an integer code stored as a float).
   */
  function NormCode(x: string): (r: string)
    ensures |r| <= |x|
  {
    var s := Strip(x);
    if EndsWith(s, ".0") then s[..|s| - 2] else s
  }

  /**
   * The normalised code is the stripped one with its ".0" cut off when it has one:
   * putting ".0" back gives the stripped code again, and otherwise nothing changes.
   */
  lemma NormCodeSpec(x: string)
    ensures EndsWith(Strip(x), ".0") ==> NormCode(x) + ".0" == Strip(x)
    ensures !EndsWith(Strip(x), ".0") ==> NormCode(x) == Strip(x)
  {
    var s := Strip(x);
    if EndsWith(s, ".0") {
      DropSuffix(s, ".0");
    }
  }

  /** Cutting a suffix off and putting it back gives the string again. */
  lemma DropSuffix(s: string, suffix: string)
    requires EndsWith(s, suffix)
    ensures s[..|s| - |suffix|] + suffix == s
  {
    assert s[..|s| - |suffix|] + s[|s| - |suffix|..] == s;
  }

  /** A code as stored once normalised: no surrounding whitespace and no trailing ".0". */
  predicate IsCanonical(c: string) {
    IsStripped(c) && !EndsWith(c, ".0")
  }

  /** A canonical code is left alone. */
  lemma NormCodeFixesCanonical(c: string)
    requires IsCanonical(c)
    ensures NormCode(c) == c
  {
    StripUnique(c, 0, |c|);
  }

  /**
   * A code and its float rendering meet: `c + ".0"` normalises to `c` whenever `c`
   * does not start with whitespace, so "12345.0" and "12345" name the same product.
   */
  lemma NormCodeDropsFloatSuffix(c: string)
    requires c == [] || !IsSpace(c[0])
    ensures NormCode(c + ".0") == c
  {
    var s := c + ".0";
    assert s[|s| - 1] == '0';
    assert s[0] == if c == [] then '.' else c[0];
    StripUnique(s, 0, |s|);
    assert s[|s| - 2..] == ".0";
    assert s[..|s| - 2] == c;
  }

  /** "12345.0", as a spreadsheet renders the number 12345, normalises to "12345". */
  lemma NormCodeFloatExample()
    ensures NormCode("12345.0") == "12345"
  {
    assert "12345.0" == "12345" + ".0";
    NormCodeDropsFloatSuffix("12345");
  }

  /** " 12345 " loses its surrounding blanks. */
  lemma NormCodePaddedExample()
    ensures NormCode(" 12345 ") == "12345"
  {
    var s := " 12345 ";
    assert s[..1] == " " && s[6..] == " ";
    assert s[1..6] == "12345";
    assert IsStripped(s[1..6]);
    StripUnique(s, 1, 6);
  }

  /** Only one suffix is removed: "1.0.0" becomes "1.0", which normalises again to "1". */
  lemma NormCodeNotIdempotent()
    ensures NormCode("1.0.0") == "1.0"
    ensures NormCode(NormCode("1.0.0")) != NormCode("1.0.0")
  {
    assert "1.0.0" == "1.0" + ".0";
    NormCodeDropsFloatSuffix("1.0");
    assert "1.0" == "1" + ".0";
    NormCodeDropsFloatSuffix("1");
  }
}
