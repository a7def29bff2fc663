/**
 Avatar normalisation: the roster asks for every picture at size 200 by
 rewriting the value of its `sz` query parameter. The parameter is the
 first `sz=` followed by at least one digit; its value is the whole run
 of digits after the `=`. A URL without one is left as it is.
 */
module Avatar {
  import opened Types

  /** The requested picture size, as it appears in the URL. */
  const AvatarSize: string := "200"

  predicate IsDigit(c: char) {
    '0' <= c <= '9'
  }

  /** `url` holds `sz=` followed by a digit at index `i`. */
  predicate SizeParamAt(url: string, i: int) {
    0 <= i && i + 4 <= |url|
    && url[i] == 's' && url[i + 1] == 'z' && url[i + 2] == '='
    && IsDigit(url[i + 3])
  }

  /** The first index at or after `from` where a size parameter starts. */
  function FindSizeParam(url: string, from: nat): (r: Option<nat>)
    requires from <= |url|
    ensures r.Some? ==> from <= r.value && SizeParamAt(url, r.value)
    ensures r.Some? ==> forall j :: from <= j < r.value ==> !SizeParamAt(url, j)
    ensures r.None? ==> forall j :: from <= j < |url| ==> !SizeParamAt(url, j)
    decreases |url| - from
  {
    if from == |url| then None
    else if SizeParamAt(url, from) then Some(from)
    else FindSizeParam(url, from + 1)
  }

  /** The end of the run of digits that starts at `from`. */
  function DigitRunEnd(url: string, from: nat): (e: nat)
    requires from <= |url|
    ensures from <= e <= |url|
    ensures forall k :: from <= k < e ==> IsDigit(url[k])
    ensures e == |url| || !IsDigit(url[e])
    decreases |url| - from
  {
    if from == |url| || !IsDigit(url[from]) then from
    else DigitRunEnd(url, from + 1)
  }

  /** The value of the size parameter, if the URL has one. */
  function SizeValue(url: string): (v: Option<string>)
    ensures v.Some? ==> |v.value| > 0 && forall k :: 0 <= k < |v.value| ==> IsDigit(v.value[k])
  {
    match FindSizeParam(url, 0)
    case None => None
    case Some(i) => Some(url[i + 3 .. DigitRunEnd(url, i + 3)])
  }

  /** `url` with the value of its size parameter replaced by `AvatarSize`.
      Everything before the value and everything after it is kept. */
  function SizedAvatarUrl(url: string): (r: string)
    ensures FindSizeParam(url, 0).None? ==> r == url
    ensures FindSizeParam(url, 0).Some? ==>
      var i := FindSizeParam(url, 0).value;
      var e := DigitRunEnd(url, i + 3);
      && |r| == |url| - (e - (i + 3)) + 3
      && r[..i + 3] == url[..i + 3]
      && r[i + 3 .. i + 6] == AvatarSize
      && r[i + 6 ..] == url[e..]
  {
    match FindSizeParam(url, 0)
    case None => url
    case Some(i) => url[..i + 3] + AvatarSize + url[DigitRunEnd(url, i + 3)..]
  }

  /** The first size parameter is the one at `i` when there is one at `i`
      and none before it. */
  lemma FirstSizeParam(url: string, i: nat)
    requires SizeParamAt(url, i)
    requires forall j :: 0 <= j < i ==> !SizeParamAt(url, j)
    ensures FindSizeParam(url, 0) == Some(i)
  {
  }

  /** A digit run ends at `e` when every character before it is a digit
      and the one at `e`, if any, is not. */
  lemma DigitRunEndsAt(url: string, from: nat, e: nat)
    requires from <= e <= |url|
    requires forall k :: from <= k < e ==> IsDigit(url[k])
    requires e == |url| || !IsDigit(url[e])
    ensures DigitRunEnd(url, from) == e
  {
  }

  /** Two strings that agree on their first `i + 3` characters have the
      same size parameters before `i`. */
  lemma SamePrefixSameParams(url: string, r: string, i: nat)
    requires i + 3 <= |url| && i + 3 <= |r|
    requires r[..i + 3] == url[..i + 3]
    requires forall j :: 0 <= j < i ==> !SizeParamAt(url, j)
    ensures forall j :: 0 <= j < i ==> !SizeParamAt(r, j)
  {
    forall j | 0 <= j < i
      ensures !SizeParamAt(r, j)
    {
      assert !SizeParamAt(url, j);
      assert r[j] == r[..i + 3][j] && r[j + 1] == r[..i + 3][j + 1];
      assert r[j + 2] == r[..i + 3][j + 2] && r[j + 3] == r[..i + 3][j + 3];
    }
  }

  /** Replacing the value of the first size parameter keeps that
      parameter first. */
  lemma ReplacedParamStaysFirst(url: string, r: string, i: nat, e: nat)
    requires SizeParamAt(url, i)
    requires forall j :: 0 <= j < i ==> !SizeParamAt(url, j)
    requires i + 3 <= e <= |url|
    requires r == url[..i + 3] + AvatarSize + url[e..]
    ensures FindSizeParam(r, 0) == Some(i)
  {
    assert r[..i + 3] == url[..i + 3];
    SamePrefixSameParams(url, r, i);
    assert r[i] == url[i] && r[i + 1] == url[i + 1] && r[i + 2] == url[i + 2];
    assert r[i + 3] == '2';
    FirstSizeParam(r, i);
  }

  /** After the replacement the value is exactly the digits of
      `AvatarSize`, as the old value ended before a non-digit. */
  lemma ReplacedValueEnds(url: string, r: string, i: nat, e: nat)
    requires i + 3 <= e <= |url|
    requires e == |url| || !IsDigit(url[e])
    requires r == url[..i + 3] + AvatarSize + url[e..]
    ensures DigitRunEnd(r, i + 3) == i + 6
  {
    assert r[i + 3] == '2' && r[i + 4] == '0' && r[i + 5] == '0';
    if i + 6 < |r| {
      assert r[i + 6] == url[e];
    }
    DigitRunEndsAt(r, i + 3, i + 6);
  }

  /** After the rewrite the size parameter is found where it was, and its
      value is exactly `AvatarSize`. */
  lemma RewrittenSizeParam(url: string)
    requires FindSizeParam(url, 0).Some?
    ensures FindSizeParam(SizedAvatarUrl(url), 0) == FindSizeParam(url, 0)
    ensures var i := FindSizeParam(url, 0).value;
      DigitRunEnd(SizedAvatarUrl(url), i + 3) == i + 6
  {
    var i := FindSizeParam(url, 0).value;
    var e := DigitRunEnd(url, i + 3);
    var r := SizedAvatarUrl(url);
    assert r == url[..i + 3] + AvatarSize + url[e..];
    ReplacedParamStaysFirst(url, r, i, e);
    ReplacedValueEnds(url, r, i, e);
  }

  /** A URL with a size parameter gets the value `AvatarSize`; one without
      is returned unchanged. */
  lemma RewriteSetsSize(url: string)
    ensures SizeValue(url).Some? ==> SizeValue(SizedAvatarUrl(url)) == Some(AvatarSize)
    ensures SizeValue(url).None? ==> SizedAvatarUrl(url) == url
  {
    if FindSizeParam(url, 0).Some? {
      RewrittenSizeParam(url);
    }
  }

  /** Rewriting twice is rewriting once. */
  lemma RewriteIsIdempotent(url: string)
    ensures SizedAvatarUrl(SizedAvatarUrl(url)) == SizedAvatarUrl(url)
  {
    if FindSizeParam(url, 0).Some? {
      RewrittenSizeParam(url);
    }
  }

  /** A URL already asking for size 200 is left unchanged. */
  lemma SizeAlreadyRequestedIsKept(url: string)
    requires SizeValue(url) == Some(AvatarSize)
    ensures SizedAvatarUrl(url) == url
  {
    var i := FindSizeParam(url, 0).value;
    var e := DigitRunEnd(url, i + 3);
    assert url[i + 3 .. e] == AvatarSize;
    assert url == url[..i + 3] + url[i + 3 .. e] + url[e..];
  }

  /** The picture URL of the roster fixture: size 50 becomes size 200. */
  lemma FixtureUrlRewrite()
    ensures SizedAvatarUrl("http://some/image.jpg?sz=50") == "http://some/image.jpg?sz=200"
  {
    var url := "http://some/image.jpg?sz=50";
    forall j | 0 <= j < 22
      ensures !SizeParamAt(url, j)
    {
    }
    FirstSizeParam(url, 22);
    DigitRunEndsAt(url, 25, 27);
  }
}
