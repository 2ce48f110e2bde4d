/** The loaded platforms as the selection logic sees them, and the pure rules the platform
    manager's selection bookkeeping is built from. */
module Platforms {
  import opened Wrappers

  /** A loaded custom platform. Only its name and author are read here. Platforms are objects:
      `List.IndexOf` compares references, so two platforms with equal name and author are
      still two platforms. */
  class Platform {
    const platName: string
    const platAuthor: string

    constructor (name: string, author: string)
      ensures platName == name && platAuthor == author
    {
      platName := name;
      platAuthor := author;
    }
  }

  /** The persisted selection key of a platform: its name followed by its author. The key
      does not record where the name ends, so distinct platforms can share one. */
  function Key(p: Platform): string
  {
    p.platName + p.platAuthor
  }

  /** The key loses only the split point: two platforms with the same key and names of the
      same length have the same name and the same author. */
  lemma KeySplitPoint(p: Platform, q: Platform)
    requires Key(p) == Key(q) && |p.platName| == |q.platName|
    ensures p.platName == q.platName && p.platAuthor == q.platAuthor
  {
    assert p.platName == Key(p)[..|p.platName|];
    assert p.platAuthor == Key(p)[|p.platName|..];
  }

  /** Without the split point the key is ambiguous: the platforms ("ab", "c") and ("a", "bc")
      are two different platforms with the key "abc", and restoring that key selects whichever
      of them was loaded first. */
  method KeyCollision() returns (abC: Platform, aBc: Platform)
    ensures abC != aBc && abC.platName != aBc.platName
    ensures Key(abC) == Key(aBc) == "abc"
    ensures RestoredIndex([abC, aBc], Some(Key(aBc))) == 0
    ensures RestoredIndex([aBc, abC], Some(Key(abC))) == 0
  {
    abC := new Platform("ab", "c");
    aBc := new Platform("a", "bc");
    assert "ab" + "c" == "abc" == "a" + "bc";
  }

  /** No two platforms of the list share a key. */
  predicate KeysUnique(ps: seq<Platform>)
  {
    forall i, j :: 0 <= i < j < |ps| ==> Key(ps[i]) != Key(ps[j])
  }

  /** `List.IndexOf`: the first index holding `x` (by reference), or -1 when there is none. */
  function IndexOf<T(==)>(s: seq<T>, x: T): (idx: int)
    ensures -1 <= idx < |s|
    ensures idx == -1 <==> x !in s
    ensures 0 <= idx ==> s[idx] == x && forall j :: 0 <= j < idx ==> s[j] != x
  {
    if s == [] then -1
    else if s[0] == x then 0
    else
      var rest := IndexOf(s[1..], x);
      if rest == -1 then -1 else rest + 1
  }

  /** The first index of a platform whose key equals `key`, if any. */
  function FirstKeyIndex(ps: seq<Platform>, key: string): (r: Option<nat>)
    ensures r.Some? ==> r.value < |ps| && Key(ps[r.value]) == key
    ensures r.Some? ==> forall j :: 0 <= j < r.value ==> Key(ps[j]) != key
    ensures r.None? ==> forall j :: 0 <= j < |ps| ==> Key(ps[j]) != key
  {
    if ps == [] then None
    else if Key(ps[0]) == key then Some(0)
    else
      match FirstKeyIndex(ps[1..], key)
      case None => None
      case Some(i) => Some(i + 1)
  }

  /** The index `Reload` selects from the persisted key: the first platform whose key matches,
      and index 0 when no key is stored or nothing matches. */
  function RestoredIndex(ps: seq<Platform>, savedPath: Option<string>): (idx: nat)
    requires |ps| > 0
    ensures idx < |ps|
    ensures savedPath.Some? && FirstKeyIndex(ps, savedPath.value).Some? ==> Key(ps[idx]) == savedPath.value
  {
    match savedPath
    case None => 0
    case Some(path) =>
      match FirstKeyIndex(ps, path)
      case Some(i) => i
      case None => 0
  }

  /** What the restored index is, case by case. */
  lemma RestoredIndexMeaning(ps: seq<Platform>, savedPath: Option<string>)
    requires |ps| > 0
    ensures RestoredIndex(ps, savedPath) < |ps|
    ensures savedPath.None? ==> RestoredIndex(ps, savedPath) == 0
    ensures savedPath.Some? && (forall j :: 0 <= j < |ps| ==> Key(ps[j]) != savedPath.value) ==>
      RestoredIndex(ps, savedPath) == 0
    ensures savedPath.Some? && (exists j :: 0 <= j < |ps| && Key(ps[j]) == savedPath.value) ==>
      var idx := RestoredIndex(ps, savedPath);
      Key(ps[idx]) == savedPath.value && forall j :: 0 <= j < idx ==> Key(ps[j]) != savedPath.value
  {
  }

  /** C#'s `/` on `int`, which truncates toward zero. */
  function CsQuotient(a: int, n: int): int
    requires n > 0
  {
    if a >= 0 then a / n else -((-a) / n)
  }

  /** C#'s `%` on `int`: the remainder of the truncating division, which takes the sign of the
      dividend and is smaller than the divisor in magnitude. */
  function CsRemainder(a: int, n: int): (r: int)
    requires n > 0
    ensures a == n * CsQuotient(a, n) + r
    ensures -n < r < n
    ensures a >= 0 ==> r >= 0
    ensures a <= 0 ==> r <= 0
  {
    if a >= 0 then a % n
    else
      var q, m := (-a) / n, (-a) % n;
      assert -a == n * q + m;
      assert n * -q == -(n * q);
      -m
  }

  /** Persisting a platform's key and restoring from it selects the first platform with that
      key: an index no later than the one saved, holding the same key, and that very index
      when keys are unique. */
  lemma SelectionRoundTrip(ps: seq<Platform>, j: nat)
    requires j < |ps|
    ensures var k := RestoredIndex(ps, Some(Key(ps[j])));
      k <= j && Key(ps[k]) == Key(ps[j])
    ensures KeysUnique(ps) ==> RestoredIndex(ps, Some(Key(ps[j]))) == j
  {
  }

  /** Restoring from platform `j`'s key gives back `j` exactly when no earlier platform has
      the same key. */
  lemma RestoresOwnIndex(ps: seq<Platform>, j: nat)
    requires j < |ps|
    ensures RestoredIndex(ps, Some(Key(ps[j]))) == j <==> forall i :: 0 <= i < j ==> Key(ps[i]) != Key(ps[j])
  {
    RestoredIndexMeaning(ps, Some(Key(ps[j])));
  }

  /** Every platform's saved key restores that platform exactly when keys are unique. */
  lemma RestoresEveryIndexIffKeysUnique(ps: seq<Platform>)
    requires |ps| > 0
    ensures (forall j :: 0 <= j < |ps| ==> RestoredIndex(ps, Some(Key(ps[j]))) == j) <==> KeysUnique(ps)
  {
    forall j | 0 <= j < |ps|
      ensures RestoredIndex(ps, Some(Key(ps[j]))) == j <==> forall i :: 0 <= i < j ==> Key(ps[i]) != Key(ps[j])
    {
      RestoresOwnIndex(ps, j);
    }
  }

  /** Appending to a list does not move an element that was already in it. */
  lemma {:induction false} IndexOfAppend<T>(s: seq<T>, extra: seq<T>, x: T)
    requires x in s
    ensures IndexOf(s + extra, x) == IndexOf(s, x)
  {
    if s[0] != x {
      assert (s + extra)[1..] == s[1..] + extra;
      IndexOfAppend(s[1..], extra, x);
    }
  }

  /** With unique keys no platform occurs twice, so a platform's first index is its index. */
  lemma IndexOfKeysUnique(ps: seq<Platform>, j: nat)
    requires j < |ps| && KeysUnique(ps)
    ensures IndexOf(ps, ps[j]) == j
  {
    assert forall k :: 0 <= k < j ==> Key(ps[k]) != Key(ps[j]);
  }
}
