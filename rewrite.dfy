/**
 * The image-size upgrade applied to a URI just before it is fetched:
 * `strings.Replace(uri, "200,200", "1600,1600", 1)`, which swaps the first
 * occurrence of the thumbnail size for the large size and leaves every
 * other character alone.
 */
module Rewrite {
  import opened Wrappers

  const LowRes: string := "200,200"
  const HighRes: string := "1600,1600"

  /** `pat` occurs in `s` starting at index `i`. */
  predicate OccursAt(s: string, pat: string, i: nat) {
    i + |pat| <= |s| && s[i..i + |pat|] == pat
  }

  /** The first occurrence of `pat` in `s` at or after `from`. */
  function IndexFrom(s: string, pat: string, from: nat): (r: Option<nat>)
    ensures r.Some? ==> from <= r.value && OccursAt(s, pat, r.value)
    ensures r.Some? ==> forall j: nat :: from <= j < r.value ==> !OccursAt(s, pat, j)
    ensures r.None? ==> forall j: nat :: from <= j ==> !OccursAt(s, pat, j)
    decreases |s| - from
  {
    if OccursAt(s, pat, from) then Some(from)
    else if from >= |s| then None
    else IndexFrom(s, pat, from + 1)
  }

  /** `strings.Index(s, pat)`: the first index where `pat` occurs, if any. */
  function IndexOf(s: string, pat: string): (r: Option<nat>)
    ensures r.Some? ==> OccursAt(s, pat, r.value)
    ensures r.Some? ==> forall j: nat :: j < r.value ==> !OccursAt(s, pat, j)
    ensures r.None? <==> forall j: nat :: !OccursAt(s, pat, j)
  {
    IndexFrom(s, pat, 0)
  }

  /**
   * `strings.Replace(s, pat, rep, 1)`: scan `s` from the left, and at the
   * first place where `pat` occurs put `rep` in its place.
   */
  function ReplaceFirst(s: string, pat: string, rep: string): string
    decreases |s|
  {
    if OccursAt(s, pat, 0) then rep + s[|pat|..]
    else if s == [] then s
    else [s[0]] + ReplaceFirst(s[1..], pat, rep)
  }

  /** Occurrences in the tail of `s` are the occurrences in `s`, one place further on. */
  lemma OccursInTail(s: string, pat: string, j: nat)
    requires s != []
    ensures OccursAt(s[1..], pat, j) <==> OccursAt(s, pat, j + 1)
  {
    if j + 1 + |pat| <= |s| {
      assert s[1..][j..j + |pat|] == s[j + 1..j + 1 + |pat|];
    }
  }

  /** The size upgrade the download worker applies to every URI it fetches. */
  function Upgrade(uri: string): string {
    ReplaceFirst(uri, LowRes, HighRes)
  }

  /**
   * Where `pat` first occurs at `i`, the result is the text before `i`, the
   * replacement, and the text after that occurrence, unchanged.
   */
  lemma {:induction false} ReplaceFirstAt(s: string, pat: string, rep: string, i: nat)
    requires OccursAt(s, pat, i)
    requires forall j: nat :: j < i ==> !OccursAt(s, pat, j)
    ensures ReplaceFirst(s, pat, rep) == s[..i] + rep + s[i + |pat|..]
    decreases i
  {
    if i > 0 {
      assert !OccursAt(s, pat, 0);
      var t := s[1..];
      OccursInTail(s, pat, i - 1);
      forall j: nat | j < i - 1 ensures !OccursAt(t, pat, j) {
        OccursInTail(s, pat, j);
      }
      ReplaceFirstAt(t, pat, rep, i - 1);
      assert ReplaceFirst(s, pat, rep) == [s[0]] + ReplaceFirst(t, pat, rep);
      assert [s[0]] + t[..i - 1] == s[..i];
      assert t[i - 1 + |pat|..] == s[i + |pat|..];
    }
  }

  /** Where `pat` does not occur, nothing is replaced. */
  lemma {:induction false} ReplaceFirstAbsent(s: string, pat: string, rep: string)
    requires forall j: nat :: !OccursAt(s, pat, j)
    ensures ReplaceFirst(s, pat, rep) == s
    decreases |s|
  {
    assert !OccursAt(s, pat, 0);
    if s != [] {
      forall j: nat ensures !OccursAt(s[1..], pat, j) {
        OccursInTail(s, pat, j);
      }
      ReplaceFirstAbsent(s[1..], pat, rep);
      assert [s[0]] + s[1..] == s;
    }
  }

  /** The scan agrees with `strings.Index`: the replaced occurrence is the one `IndexOf` finds. */
  lemma ReplaceFirstUsesIndexOf(s: string, pat: string, rep: string)
    ensures ReplaceFirst(s, pat, rep) ==
      match IndexOf(s, pat)
      case None => s
      case Some(i) => s[..i] + rep + s[i + |pat|..]
  {
    match IndexOf(s, pat)
    case None => ReplaceFirstAbsent(s, pat, rep);
    case Some(i) => ReplaceFirstAt(s, pat, rep, i);
  }

  /** A URI without the thumbnail size is fetched as it is. */
  lemma UpgradeWithoutLowRes(uri: string)
    requires forall j: nat :: !OccursAt(uri, LowRes, j)
    ensures Upgrade(uri) == uri
  {
    ReplaceFirstAbsent(uri, LowRes, HighRes);
  }

  /** The first thumbnail size becomes the large size; the rest of the URI is kept. */
  lemma UpgradeFirst(uri: string, i: nat)
    requires OccursAt(uri, LowRes, i)
    requires forall j: nat :: j < i ==> !OccursAt(uri, LowRes, j)
    ensures Upgrade(uri) == uri[..i] + HighRes + uri[i + |LowRes|..]
    ensures |Upgrade(uri)| == |uri| + 2
    ensures OccursAt(Upgrade(uri), HighRes, i)
    ensures Upgrade(uri)[..i] == uri[..i]
  {
    ReplaceFirstAt(uri, LowRes, HighRes, i);
    var r := Upgrade(uri);
    assert r[i..i + |HighRes|] == HighRes;
  }

  /**
   * Only the first occurrence is replaced: a later occurrence that does not
   * overlap the first one is still there, shifted by the two extra characters.
   */
  lemma UpgradeKeepsLaterLowRes(uri: string, i: nat, j: nat)
    requires OccursAt(uri, LowRes, i)
    requires forall k: nat :: k < i ==> !OccursAt(uri, LowRes, k)
    requires OccursAt(uri, LowRes, j) && j >= i + |LowRes|
    ensures OccursAt(Upgrade(uri), LowRes, j + 2)
  {
    UpgradeFirst(uri, i);
    var r := Upgrade(uri);
    var tail := uri[i + |LowRes|..];
    assert r == uri[..i] + HighRes + tail;
    assert |uri[..i] + HighRes| == j + 2 - (j - i - |LowRes|);
    forall m | j + 2 <= m < j + 2 + |LowRes|
      ensures r[m] == uri[m - 2]
    {
      assert r[m] == tail[m - i - |HighRes|];
    }
    assert r[j + 2..j + 2 + |LowRes|] == uri[j..j + |LowRes|];
  }

  /**
   * A URI whose text before the thumbnail size holds no `2` (so no earlier
   * copy can start there) has exactly that size replaced.
   */
  lemma UpgradeAfter(prefix: string, rest: string)
    requires LowRes[0] !in prefix
    ensures Upgrade(prefix + LowRes + rest) == prefix + HighRes + rest
  {
    var uri := prefix + LowRes + rest;
    var i := |prefix|;
    assert uri[i..i + |LowRes|] == LowRes;
    forall j: nat | j < i ensures !OccursAt(uri, LowRes, j) {
      assert uri[j] == prefix[j];
    }
    ReplaceFirstAt(uri, LowRes, HighRes, i);
    assert uri[..i] == prefix;
    assert uri[i + |LowRes|..] == rest;
  }

  /** With the thumbnail size twice, only the first copy is upgraded. */
  lemma UpgradeTwiceExample()
    ensures Upgrade("200,200/200,200") == "1600,1600/200,200"
  {
    var uri := "200,200/200,200";
    assert OccursAt(uri, LowRes, 0);
    ReplaceFirstAt(uri, LowRes, HighRes, 0);
  }
}
