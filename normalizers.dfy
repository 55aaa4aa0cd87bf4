/**
 * The four per-field text normalizers of the rule table (the `format`
 * lambdas of `EXTRACTION_RULES`), as an enumeration interpreted by pure
 * functions. Each lambda has the shape `... if s else s`, so each returns an
 * empty input unchanged; the functions below keep that guard.
 */
module Normalizers {
  import opened Text

  /** U+3000 IDEOGRAPHIC SPACE, the full-width space. */
  const IdeographicSpace: char := '\U{3000}'
  /** U+3012 POSTAL MARK. */
  const PostalMark: char := '\U{3012}'
  /** U+30FC KATAKANA-HIRAGANA PROLONGED SOUND MARK, typed in place of a hyphen in phone numbers. */
  const ProlongedSoundMark: char := '\U{30FC}'
  const HttpPrefix: string := "http://"
  const HttpsPrefix: string := "https://"

  datatype Normalizer =
    | FullWidthSpace  // names and addresses: full-width spaces become ASCII spaces
    | PostalCode      // postal code: postal marks removed, whitespace stripped
    | PhoneNumber     // TEL and FAX: hyphens and prolonged sound marks removed
    | WebUrl          // company URL: `https://` added when no scheme is given

  /** `s.replace('　', ' ') if s else s`: every full-width space, and nothing else, becomes `' '`. */
  function FullWidthToAscii(s: string): (r: string)
    ensures |r| == |s|
    ensures IdeographicSpace !in r
    ensures forall k :: 0 <= k < |s| ==> r[k] == (if s[k] == IdeographicSpace then ' ' else s[k])
  {
    if s == "" then s else ReplaceChar(s, IdeographicSpace, ' ')
  }

  /**
   * `s.replace('〒', '').strip() if s else s`: every postal mark is gone (not
   * only a leading one), no whitespace is left at either end, and what remains
   * is taken from `s` in order.
   */
  function CleanPostalCode(s: string): (r: string)
    ensures PostalMark !in r
    ensures NoEdgeSpace(r)
    ensures IsSubsequence(r, s)
    ensures |r| <= |s|
    ensures IsStripped(r, RemoveChar(s, PostalMark))
  {
    if s == "" then s
    else
      var t := RemoveChar(s, PostalMark);
      var r := Strip(t);
      assert IsStripped(r, t);
      StripIsSubsequence(t);
      SubsequenceTransitive(r, t, s);
      SubsequenceLength(r, s);
      r
  }

  /**
   * `s.replace('-', '').replace('ー', '') if s else s`: exactly the hyphens and
   * prolonged sound marks are deleted; every other character is kept, in order.
   */
  function CleanPhoneNumber(s: string): (r: string)
    ensures '-' !in r && ProlongedSoundMark !in r
    ensures IsSubsequence(r, s)
    ensures |r| == |s| - Count(s, '-') - Count(s, ProlongedSoundMark)
    ensures forall d :: d != '-' && d != ProlongedSoundMark ==> Count(r, d) == Count(s, d)
  {
    if s == "" then s
    else
      var t := RemoveChar(s, '-');
      var r := RemoveChar(t, ProlongedSoundMark);
      AbsentCountZero(t, '-');
      NoCountNotIn(r, '-');
      SubsequenceTransitive(r, t, s);
      r
  }

  /**
   * Conversely, whatever lies between leading and trailing whitespace of the
   * mark-free text, without whitespace at its own edges, is the result.
   */
  lemma CleanPostalCodeExact(s: string, a: string, t: string, b: string)
    requires RemoveChar(s, PostalMark) == a + t + b
    requires AllSpace(a) && AllSpace(b) && NoEdgeSpace(t)
    ensures CleanPostalCode(s) == t
  {
    StripUnique(a, t, b);
  }

  /**
   * Conversely, a subsequence of `s` without hyphens and prolonged sound marks
   * that is as long as the contract says is the result: only those characters
   * were deleted.
   */
  lemma CleanPhoneNumberExact(s: string, t: string)
    requires '-' !in t && ProlongedSoundMark !in t && IsSubsequence(t, s)
    requires |t| == |s| - Count(s, '-') - Count(s, ProlongedSoundMark)
    ensures CleanPhoneNumber(s) == t
  {
    var u := RemoveChar(s, '-');
    AvoidingSubsequenceOfRemoved(t, s, '-');
    RemoveCharUnique(t, u, ProlongedSoundMark);
  }

  predicate HasScheme(s: string)
  {
    HttpPrefix <= s || HttpsPrefix <= s
  }

  /**
   * `f"https://{s}" if s and not s.startswith(('http://', 'https://')) else s`:
   * the input is left alone exactly when it is empty or already has a scheme;
   * otherwise `https://` is put in front of it. A non-empty result always has a scheme.
   */
  function NormalizeUrl(s: string): (r: string)
    ensures r == s <==> s == "" || HasScheme(s)
    ensures r != s ==> r == HttpsPrefix + s
    ensures s != "" ==> r != "" && HasScheme(r)
  {
    if s != "" && !HasScheme(s) then HttpsPrefix + s else s
  }

  /** The normalizer a rule names, applied to the text of a present cell. */
  function Apply(n: Normalizer, s: string): (r: string)
    ensures s == "" ==> r == ""
  {
    match n
    case FullWidthSpace => FullWidthToAscii(s)
    case PostalCode => CleanPostalCode(s)
    case PhoneNumber => CleanPhoneNumber(s)
    case WebUrl => NormalizeUrl(s)
  }

  /** Every normalizer gives its own output back unchanged. */
  lemma ApplyIdempotent(n: Normalizer, s: string)
    ensures Apply(n, Apply(n, s)) == Apply(n, s)
  {
    match n
    case FullWidthSpace => FullWidthToAsciiIdempotent(s);
    case PostalCode => CleanPostalCodeIdempotent(s);
    case PhoneNumber => CleanPhoneNumberIdempotent(s);
    case WebUrl =>
  }

  lemma FullWidthToAsciiIdempotent(s: string)
    ensures FullWidthToAscii(FullWidthToAscii(s)) == FullWidthToAscii(s)
  {
    var r := FullWidthToAscii(s);
    var rr := FullWidthToAscii(r);
    assert forall k :: 0 <= k < |r| ==> rr[k] == r[k];
  }

  lemma CleanPostalCodeIdempotent(s: string)
    ensures CleanPostalCode(CleanPostalCode(s)) == CleanPostalCode(s)
  {
    var r := CleanPostalCode(s);
    if r != "" {
      RemoveAbsentChar(r, PostalMark);
      StripClean(r);
    }
  }

  lemma CleanPhoneNumberIdempotent(s: string)
    ensures CleanPhoneNumber(CleanPhoneNumber(s)) == CleanPhoneNumber(s)
  {
    var r := CleanPhoneNumber(s);
    if r != "" {
      RemoveAbsentChar(r, '-');
      RemoveAbsentChar(r, ProlongedSoundMark);
    }
  }
}
