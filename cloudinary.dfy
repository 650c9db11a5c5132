/** `getPublicIdFromUrl` of lib/cloudinary.ts: the first match of the regular
    expression `/\/v\d+\/(.+)\.\w+$/` against an image URL, returning the
    capture group (the folder path and file name without the extension) or
    null when the expression does not match. */
module Cloudinary {
  import opened Wrappers
  import Text

  /** `\w`: ASCII letters, digits and the underscore. */
  predicate IsWordChar(c: char) {
    'a' <= c <= 'z' || 'A' <= c <= 'Z' || Text.IsDigit(c) || c == '_'
  }

  /** The characters `.` does not match without the `s` flag. */
  predicate IsLineTerminator(c: char) {
    c == '\n' || c == '\r' || c == '\U{2028}' || c == '\U{2029}'
  }

  /** The expression matches `url` from index `p` with `\d+` covering `url[p+2..q]`,
      the capture `(.+)` covering `url[q+1..e]` and `\w+$` covering `url[e+1..]`. */
  predicate MatchAt(url: string, p: int, q: int, e: int) {
    && 0 <= p && p + 2 < q && q + 1 < e && e + 1 < |url|
    && url[p] == '/' && url[p + 1] == 'v'
    && (forall i :: p + 2 <= i < q ==> Text.IsDigit(url[i]))
    && url[q] == '/'
    && (forall i :: q < i < e ==> !IsLineTerminator(url[i]))
    && url[e] == '.'
    && (forall i :: e < i < |url| ==> IsWordChar(url[i]))
  }

  /** The end of the run of digits that starts at `i`. */
  function DigitRunEnd(url: string, i: nat): (j: nat)
    requires i <= |url|
    ensures i <= j <= |url|
    ensures forall k :: i <= k < j ==> Text.IsDigit(url[k])
    ensures j == |url| || !Text.IsDigit(url[j])
    decreases |url| - i
  {
    if i < |url| && Text.IsDigit(url[i]) then DigitRunEnd(url, i + 1) else i
  }

  /** The start of the run of word characters that ends just before `j`. */
  function WordRunStart(url: string, j: nat): (k: nat)
    requires j <= |url|
    ensures k <= j
    ensures forall i :: k <= i < j ==> IsWordChar(url[i])
    ensures k == 0 || !IsWordChar(url[k - 1])
  {
    if j > 0 && IsWordChar(url[j - 1]) then WordRunStart(url, j - 1) else j
  }

  /** Where `\.\w+$` can match: the dot before the trailing run of word characters,
      provided that run is not empty. */
  function ExtensionDot(url: string): (e: Option<nat>)
    ensures e.Some? ==> e.value + 1 < |url| && url[e.value] == '.'
    ensures e.Some? ==> forall i :: e.value < i < |url| ==> IsWordChar(url[i])
  {
    var k := WordRunStart(url, |url|);
    if 0 < k < |url| && url[k - 1] == '.' then Some(k - 1) else None
  }

  /** Whether the expression matches from `p` given the dot `e` of the extension; the
      digit run is taken whole, since a shorter one is never followed by `/`. */
  predicate CandidateAt(url: string, p: nat, e: nat) {
    && p + 2 <= |url| && url[p] == '/' && url[p + 1] == 'v'
    && var q := DigitRunEnd(url, p + 2);
       && p + 2 < q && q + 1 < e && e + 1 < |url| && url[q] == '/' && url[e] == '.'
       && (forall i :: q < i < e ==> !IsLineTerminator(url[i]))
       && (forall i :: e < i < |url| ==> IsWordChar(url[i]))
  }

  /** A match fixes where its digits end: at the end of the digit run. */
  lemma MatchDigits(url: string, p: int, q: int, e: int)
    requires MatchAt(url, p, q, e)
    ensures q == DigitRunEnd(url, p + 2)
  {
    assert !Text.IsDigit(url[q]);
  }

  /** A match fixes its dot: the one before the trailing word characters. */
  lemma MatchDot(url: string, p: int, q: int, e: int)
    requires MatchAt(url, p, q, e)
    ensures ExtensionDot(url) == Some(e)
  {
    assert !IsWordChar(url[e]);
  }

  /** Given the extension's dot, `CandidateAt` is exactly "the expression matches from `p`". */
  lemma CandidateIsMatch(url: string, p: nat, e: nat)
    requires ExtensionDot(url) == Some(e)
    ensures CandidateAt(url, p, e) ==> MatchAt(url, p, DigitRunEnd(url, p + 2), e)
    ensures (exists q, e' :: MatchAt(url, p, q, e')) ==> CandidateAt(url, p, e)
  {
    if exists q, e' :: MatchAt(url, p, q, e') {
      var q, e' :| MatchAt(url, p, q, e');
      MatchDigits(url, p, q, e');
      MatchDot(url, p, q, e');
    }
  }

  /** The leftmost start at or after `p` from which the expression matches, with the
      end of its digits. */
  function FirstMatch(url: string, p: nat, e: nat): (r: Option<(nat, nat)>)
    requires ExtensionDot(url) == Some(e)
    ensures r.Some? ==> p <= r.value.0 && MatchAt(url, r.value.0, r.value.1, e)
    ensures forall p', q, e' :: p <= p' && MatchAt(url, p', q, e') && (r.None? || p' < r.value.0) ==> false
    decreases |url| - p
  {
    if p + 2 > |url| then
      None
    else if CandidateAt(url, p, e) then
      CandidateIsMatch(url, p, e);
      Some((p, DigitRunEnd(url, p + 2)))
    else
      CandidateIsMatch(url, p, e);
      FirstMatch(url, p + 1, e)
  }

  /** `getPublicIdFromUrl(url)`: the text the leftmost match captures, or null when
      nothing matches. It is total: every string gives a string or null. */
  function GetPublicIdFromUrl(url: string): (r: Option<string>)
    ensures r.None? <==> forall p, q, e :: !MatchAt(url, p, q, e)
    ensures r.Some? ==> exists p, q, e ::
      && MatchAt(url, p, q, e) && r.value == url[q + 1..e]
      && (forall p', q', e' :: MatchAt(url, p', q', e') ==> p <= p')
  {
    match ExtensionDot(url)
    case None =>
      assert forall p, q, e :: !MatchAt(url, p, q, e) by {
        forall p, q, e | MatchAt(url, p, q, e) ensures false {
          MatchDot(url, p, q, e);
        }
      }
      None
    case Some(e) =>
      match FirstMatch(url, 0, e)
      case None => None
      case Some((p, q)) => Some(url[q + 1..e])
  }

  /** A non-empty run of word characters, as `\w+` matches. */
  predicate IsExtension(ext: string) {
    ext != [] && forall i :: 0 <= i < |ext| ==> IsWordChar(ext[i])
  }

  predicate EndsWith(s: string, suffix: string) {
    |suffix| <= |s| && s[|s| - |suffix|..] == suffix
  }

  /** What a single match captures: non-empty text without a line break,
      followed to the end of the URL by a dot and the extension. */
  lemma MatchShape(url: string, p: int, q: int, e: int)
    requires MatchAt(url, p, q, e)
    ensures url[q + 1..e] != []
    ensures forall i :: q + 1 <= i < e ==> !IsLineTerminator(url[i])
    ensures IsExtension(url[e + 1..]) && EndsWith(url, url[q + 1..e] + "." + url[e + 1..])
  {
    assert url[q + 1..] == url[q + 1..e] + "." + url[e + 1..];
  }

  /** A public id is never empty, spans no line break, and is followed in the URL by
      exactly a dot and a non-empty run of word characters: the URL is rebuilt by
      appending "." and the extension to it. */
  lemma PublicIdShape(url: string)
    requires GetPublicIdFromUrl(url).Some?
    ensures GetPublicIdFromUrl(url).value != []
    ensures forall i :: 0 <= i < |GetPublicIdFromUrl(url).value| ==> !IsLineTerminator(GetPublicIdFromUrl(url).value[i])
    ensures exists ext :: IsExtension(ext) && EndsWith(url, GetPublicIdFromUrl(url).value + "." + ext)
  {
    var id := GetPublicIdFromUrl(url).value;
    var e := ExtensionDot(url).value;
    var (p, q) := FirstMatch(url, 0, e).value;
    MatchShape(url, p, q, e);
  }

  /** `url[p..q+1]` has the form `/v.../`. */
  predicate VersionSlashes(url: string, p: int, q: int) {
    0 <= p && p + 2 < q < |url| && url[p] == '/' && url[p + 1] == 'v' && url[q] == '/'
  }

  /** Without a `/v<digits>/` segment there is no public id. */
  lemma NoVersionNoId(url: string)
    requires forall p, q :: VersionSlashes(url, p, q) ==> exists i :: p + 2 <= i < q && !Text.IsDigit(url[i])
    ensures GetPublicIdFromUrl(url) == None
  {
    forall p, q, e ensures !MatchAt(url, p, q, e) {
      if VersionSlashes(url, p, q) {
        var i :| p + 2 <= i < q && !Text.IsDigit(url[i]);
      }
    }
  }

  /** Without a trailing `.<word characters>` there is no public id. */
  lemma NoExtensionNoId(url: string)
    requires forall e :: 0 <= e < |url| - 1 && url[e] == '.' ==> exists i :: e < i < |url| && !IsWordChar(url[i])
    ensures GetPublicIdFromUrl(url) == None
  {
    forall p, q, e ensures !MatchAt(url, p, q, e) {
      if 0 <= e < |url| - 1 && url[e] == '.' {
        var i :| e < i < |url| && !IsWordChar(url[i]);
      }
    }
  }

  /** The result is the capture of the leftmost match: given a match from `p` and
      none further left, the public id is `url[q+1..e]`. */
  lemma CapturedByLeftmostMatch(url: string, p: int, q: int, e: int)
    requires MatchAt(url, p, q, e)
    requires forall p', q', e' :: MatchAt(url, p', q', e') ==> p <= p'
    ensures GetPublicIdFromUrl(url) == Some(url[q + 1..e])
  {
    MatchDot(url, p, q, e);
    MatchDigits(url, p, q, e);
    var first := FirstMatch(url, 0, e);
    assert first.Some?;
    var (p0, q0) := first.value;
    assert p0 == p;
    MatchDigits(url, p0, q0, e);
  }

  /** The leftmost version segment wins, and the rest of the path is captured. */
  lemma ExampleLeftmost()
    ensures GetPublicIdFromUrl("/v1/a/v2/b.png") == Some("a/v2/b")
  {
    var url := "/v1/a/v2/b.png";
    assert url[4..10] == "a/v2/b";
    assert MatchAt(url, 0, 3, 10) by {}
    CapturedByLeftmostMatch(url, 0, 3, 10);
  }

  /** A query string after the extension defeats the `$` anchor. */
  lemma ExampleQueryString()
    ensures GetPublicIdFromUrl("/v1/a.jpg?w=800") == None
  {
    var url := "/v1/a.jpg?w=800";
    assert !IsWordChar(url[11]);
    assert WordRunStart(url, |url|) == 12;
  }
}
