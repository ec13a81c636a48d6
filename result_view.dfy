/**
 * The single-image result screen of components/ResultView.tsx: the file name offered
 * for the download (the original name up to its last dot), the download attribute
 * built from it, and the size reduction shown beside the preview.
 *
 * `String.prototype.lastIndexOf` and `substring` are written out with their
 * JavaScript rules: -1 for a missing character, and arguments clamped to the
 * string and swapped when out of order.
 */
module ResultView {
  import opened Wrappers

  const FallbackName: string := "image"
  const WebpExtension: string := ".webp"

  function Min(a: int, b: int): int { if a <= b then a else b }
  function Max(a: int, b: int): int { if a <= b then b else a }
  function Clamp(i: int, n: nat): nat { if i < 0 then 0 else if i > n then n else i }

  /** `s.lastIndexOf(c)`: the last position holding `c`, or -1. */
  function LastIndexOf(s: string, c: char): (r: int)
    ensures -1 <= r < |s|
    ensures r >= 0 ==> s[r] == c && forall k :: r < k < |s| ==> s[k] != c
    ensures r == -1 <==> c !in s
  {
    if s == [] then -1
    else if s[|s| - 1] == c then |s| - 1
    else
      assert s == s[..|s| - 1] + [s[|s| - 1]];
      LastIndexOf(s[..|s| - 1], c)
  }

  /** `s.substring(start, end)`: both bounds clamped to `[0, |s|]`, then taken in increasing order. */
  function Substring(s: string, start: int, end: int): (r: string)
    ensures |r| <= |s|
  {
    var a := Clamp(start, |s|);
    var b := Clamp(end, |s|);
    s[Min(a, b)..Max(a, b)]
  }

  /** Within bounds `substring` is the slice, a start and an end that are both at most 0 give the empty string, and the bounds may be given in either order. */
  lemma SubstringRules(s: string, start: int, end: int)
    ensures 0 <= start <= end <= |s| ==> Substring(s, start, end) == s[start..end]
    ensures start <= 0 && end <= 0 ==> Substring(s, start, end) == []
    ensures Substring(s, start, end) == Substring(s, end, start)
  {
  }

  /** The initial value of the file-name box: `name.substring(0, name.lastIndexOf('.')) || name`, with 'image' for an empty name. */
  function DefaultStem(originalName: string): string
  {
    var name := if originalName == "" then FallbackName else originalName;
    var cut := Substring(name, 0, LastIndexOf(name, '.'));
    if cut == "" then name else cut
  }

  /**
   * The `download` attribute of the link: the box's text and `.webp`. Reopening the
   * downloaded file offers that text again as its stem; an emptied box downloads as
   * `.webp`, which reopens as itself.
   */
  function DownloadName(filename: string): (r: string)
    ensures filename != "" ==> DefaultStem(r) == filename
    ensures filename == "" ==> r == WebpExtension && DefaultStem(r) == r
  {
    if filename != "" then
      assert filename + WebpExtension == filename + "." + "webp";
      StemOfExtended(filename, "webp");
      filename + WebpExtension
    else
      assert LastIndexOf(WebpExtension, '.') == 0 by {
        assert WebpExtension[0] == '.';
        assert '.' !in WebpExtension[1..];
      }
      DefaultStemCases(WebpExtension);
      filename + WebpExtension
  }

  /**
   * The stem is never empty: an empty name gives 'image'; a name whose last dot is past
   * its first character is cut at that dot; a name with no dot, or whose only dot
   * leads, is kept whole.
   */
  lemma DefaultStemCases(originalName: string)
    ensures DefaultStem(originalName) != ""
    ensures originalName == "" ==> DefaultStem(originalName) == FallbackName
    ensures originalName != "" ==>
      var i := LastIndexOf(originalName, '.');
      if i > 0 then DefaultStem(originalName) == originalName[..i]
      else DefaultStem(originalName) == originalName
  {
    var name := if originalName == "" then FallbackName else originalName;
    var i := LastIndexOf(name, '.');
    SubstringRules(name, 0, i);
    assert '.' !in FallbackName;
  }

  /** The stem is a prefix of the name and drops at most the part from the last dot on. */
  lemma DefaultStemIsPrefix(originalName: string)
    requires originalName != ""
    ensures var stem := DefaultStem(originalName);
      && |stem| <= |originalName| && stem == originalName[..|stem|]
      && (|stem| < |originalName| ==>
            originalName[|stem|] == '.' && forall k :: |stem| < k < |originalName| ==> originalName[k] != '.')
  {
    DefaultStemCases(originalName);
  }

  /** The inverse of naming a file: the stem of `stem.ext` is `stem` when `ext` holds no dot. */
  lemma StemOfExtended(stem: string, ext: string)
    requires stem != "" && '.' !in ext
    ensures DefaultStem(stem + "." + ext) == stem
  {
    var name := stem + "." + ext;
    forall k | |stem| < k < |name|
      ensures name[k] != '.'
    {
      assert name[k] == ext[k - |stem| - 1];
    }
    assert name[|stem|] == '.';
    assert LastIndexOf(name, '.') == |stem|;
    DefaultStemCases(name);
    assert name[..|stem|] == stem;
  }

  /**
   * `((originalSize - newSize) / originalSize) * 100`. For an empty original the source
   * divides by zero (NaN or minus infinity); that case is `None`.
   */
  function SizeReduction(originalSize: nat, newSize: nat): (r: Option<real>)
    ensures r.None? <==> originalSize == 0
  {
    if originalSize == 0 then None
    else Some((originalSize - newSize) as real / originalSize as real * 100.0)
  }

  /** The badge is green when the reduction is positive; NaN and minus infinity are not. */
  predicate IsReduction(originalSize: nat, newSize: nat)
  {
    var r := SizeReduction(originalSize, newSize);
    r.Some? && r.value > 0.0
  }

  /** The reduction is at most 100 percent, reached exactly by an empty result, and zero exactly when the size is unchanged. */
  lemma SizeReductionBounds(originalSize: nat, newSize: nat)
    requires originalSize > 0
    ensures var r := SizeReduction(originalSize, newSize).value;
      && r <= 100.0
      && (r == 100.0 <==> newSize == 0)
      && (r == 0.0 <==> newSize == originalSize)
  {
    var o := originalSize as real;
    var r := SizeReduction(originalSize, newSize).value;
    assert r * o == (o - newSize as real) * 100.0;
  }

  /** A reduction is shown exactly when the new file is smaller. */
  lemma IsReductionIff(originalSize: nat, newSize: nat)
    ensures IsReduction(originalSize, newSize) <==> newSize < originalSize
  {
    if originalSize > 0 {
      var o := originalSize as real;
      var r := SizeReduction(originalSize, newSize).value;
      assert r * o == (o - newSize as real) * 100.0;
    }
  }
}
