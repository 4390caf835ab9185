/**
 * Matching of the regular expressions the metadata extraction uses. Each of
 * them is a run of literal pieces separated by a lazy `.*?` under the `s`
 * flag, so `.` matches every character:
 *   /<pgHead.*?<\/pgHead>/s  is the pattern  ["<pgHead", "</pgHead>"].
 * A JavaScript search returns the match that starts leftmost and, for that
 * start, the first one its lazy quantifiers reach, which for literal pieces is
 * the shortest. The search below places each piece at its first occurrence
 * after the previous one; SearchIsLeftmostShortest proves that this is that
 * match, and that no match exists when it finds none.
 */
module LazyMatch {
  import opened Wrappers

  type Pattern = seq<string>

  /** `p` occurs in `s` at position `i`. */
  predicate StartsAt(s: string, i: nat, p: string) {
    i + |p| <= |s| && forall j | 0 <= j < |p| :: s[i + j] == p[j]
  }

  /** The first position at or after `from` where `p` occurs. */
  function Find(s: string, p: string, from: nat): (r: Option<nat>)
    ensures r.Some? ==> from <= r.value && StartsAt(s, r.value, p)
    ensures r.Some? ==> forall k | from <= k < r.value :: !StartsAt(s, k, p)
    ensures r.None? ==> forall k | from <= k :: !StartsAt(s, k, p)
    decreases |s| + 1 - from
  {
    if from + |p| > |s| then None
    else if StartsAt(s, from, p) then Some(from)
    else Find(s, p, from + 1)
  }

  /**
   * Declarative meaning of `.*? pj .*? ... .*? pn` placed from `from` up to `e`:
   * the pieces from index `j` on occur in order, each at or after the end of
   * the previous one, and the last ends at `e`.
   */
  ghost predicate Fits(s: string, ps: Pattern, j: nat, from: nat, e: nat)
    requires j <= |ps|
    decreases |ps| - j
  {
    if j == |ps| then e == from
    else exists k: nat :: from <= k && StartsAt(s, k, ps[j]) && Fits(s, ps, j + 1, k + |ps[j]|, e)
  }

  /** `ps` matches `s[i..e]`: the first piece at `i`, the others lazily after it. */
  ghost predicate IsMatch(s: string, ps: Pattern, i: nat, e: nat)
    requires ps != []
  {
    StartsAt(s, i, ps[0]) && Fits(s, ps, 1, i + |ps[0]|, e)
  }

  /** Places every piece from index `j` at its first occurrence after the previous one; the end of the last. */
  function PlaceFrom(s: string, ps: Pattern, j: nat, from: nat): (r: Option<nat>)
    requires j <= |ps|
    ensures r.Some? ==> from <= r.value
    ensures r.Some? && j < |ps| ==>
      var last := ps[|ps| - 1];
      from + |last| <= r.value && StartsAt(s, r.value - |last|, last)
    decreases |ps| - j
  {
    if j == |ps| then Some(from)
    else
      match Find(s, ps[j], from)
      case None => None
      case Some(k) => PlaceFrom(s, ps, j + 1, k + |ps[j]|)
  }

  /** What PlaceFrom finds is a placement. */
  lemma {:induction false} PlaceFromFits(s: string, ps: Pattern, j: nat, from: nat)
    requires j <= |ps| && PlaceFrom(s, ps, j, from).Some?
    ensures Fits(s, ps, j, from, PlaceFrom(s, ps, j, from).value)
    decreases |ps| - j
  {
    if j < |ps| {
      var k0 := Find(s, ps[j], from).value;
      PlaceFromFits(s, ps, j + 1, k0 + |ps[j]|);
      assert StartsAt(s, k0, ps[j]) && Fits(s, ps, j + 1, k0 + |ps[j]|, PlaceFrom(s, ps, j, from).value);
    }
  }

  /**
   * If the pieces can be placed from `from`, PlaceFrom finds a placement when
   * started anywhere before, and it ends no later: the first occurrences never
   * lose a match and give the shortest one.
   */
  lemma {:induction false} PlaceFromEndsFirst(s: string, ps: Pattern, j: nat, from': nat, from: nat, e: nat)
    requires j <= |ps| && from' <= from && Fits(s, ps, j, from, e)
    ensures PlaceFrom(s, ps, j, from').Some? && PlaceFrom(s, ps, j, from').value <= e
    decreases |ps| - j, 1
  {
    if j == |ps| {
      assert e == from;
    } else {
      var k: nat :| from <= k && StartsAt(s, k, ps[j]) && Fits(s, ps, j + 1, k + |ps[j]|, e);
      PlaceFromEndsFirstAt(s, ps, j, from', k, e);
    }
  }

  /** The step of PlaceFromEndsFirst when piece `j` occurs at `k`, at or after `from'`. */
  lemma {:induction false} PlaceFromEndsFirstAt(s: string, ps: Pattern, j: nat, from': nat, k: nat, e: nat)
    requires j < |ps| && from' <= k && StartsAt(s, k, ps[j]) && Fits(s, ps, j + 1, k + |ps[j]|, e)
    ensures PlaceFrom(s, ps, j, from').Some? && PlaceFrom(s, ps, j, from').value <= e
    decreases |ps| - j, 0
  {
    FindNoLater(s, ps[j], from', k);
    var k0 := Find(s, ps[j], from').value;
    PlaceFromEndsFirst(s, ps, j + 1, k0 + |ps[j]|, k + |ps[j]|, e);
  }

  /** Searching from `from` finds an occurrence no later than any occurrence at or after `from`. */
  lemma FindNoLater(s: string, p: string, from: nat, k: nat)
    requires from <= k && StartsAt(s, k, p)
    ensures Find(s, p, from).Some? && Find(s, p, from).value <= k
  {
  }

  /** A single piece placed at `k` fits from any earlier position. */
  lemma FitsLast(s: string, ps: Pattern, from: nat, k: nat)
    requires |ps| > 0 && from <= k && StartsAt(s, k, ps[|ps| - 1])
    ensures Fits(s, ps, |ps| - 1, from, k + |ps[|ps| - 1]|)
  {
    assert Fits(s, ps, |ps|, k + |ps[|ps| - 1]|, k + |ps[|ps| - 1]|);
  }

  /** The shortest match of `p .*? q` has no occurrence of `q` strictly inside its lazy gap. */
  lemma ShortestPairHasNoInnerClose(s: string, p: string, q: string, i: nat, e: nat)
    requires IsMatch(s, [p, q], i, e)
    requires forall e' | IsMatch(s, [p, q], i, e') :: e <= e'
    ensures forall k | i + |p| <= k && k + |q| < e :: !StartsAt(s, k, q)
  {
    forall k | i + |p| <= k && k + |q| < e ensures !StartsAt(s, k, q) {
      CloseMakesMatch(s, p, q, i, k);
    }
  }

  /** An occurrence of `q` after `p` at `i` closes a match of `p .*? q` there. */
  lemma CloseMakesMatch(s: string, p: string, q: string, i: nat, k: nat)
    requires StartsAt(s, i, p) && i + |p| <= k
    ensures StartsAt(s, k, q) ==> IsMatch(s, [p, q], i, k + |q|)
  {
    if StartsAt(s, k, q) {
      FitsLast(s, [p, q], i + |p|, k);
    }
  }

  /** A regex search starting at `from`: the start of the match and its end. */
  function Search(s: string, ps: Pattern, from: nat): (r: Option<(nat, nat)>)
    requires ps != []
    ensures r.Some? ==> from <= r.value.0 && StartsAt(s, r.value.0, ps[0])
    ensures r.Some? ==> r.value.0 + |ps[0]| <= r.value.1 <= |s|
    ensures r.Some? && |ps| > 1 ==>
      var last := ps[|ps| - 1];
      r.value.0 + |ps[0]| + |last| <= r.value.1 && StartsAt(s, r.value.1 - |last|, last)
  {
    match Find(s, ps[0], from)
    case None => None
    case Some(i) =>
      match PlaceFrom(s, ps, 1, i + |ps[0]|)
      case None => None
      case Some(e) => Some((i, e))
  }

  /**
   * The search result is the leftmost match at or after `from` and, among the
   * matches that start there, the shortest; no result means no match at all.
   */
  lemma SearchIsLeftmostShortest(s: string, ps: Pattern, from: nat)
    requires ps != []
    ensures Search(s, ps, from).Some? ==>
      var (i, e) := Search(s, ps, from).value;
      && IsMatch(s, ps, i, e)
      && (forall i', e' | from <= i' < i :: !IsMatch(s, ps, i', e'))
      && (forall e' | IsMatch(s, ps, i, e') :: e <= e')
    ensures Search(s, ps, from).None? ==> forall i', e' | from <= i' :: !IsMatch(s, ps, i', e')
  {
    if Search(s, ps, from).Some? {
      var (i, e) := Search(s, ps, from).value;
      assert Find(s, ps[0], from) == Some(i);
      SearchFindsShortest(s, ps, from, i, e);
    } else {
      SearchMissesNothing(s, ps, from);
    }
  }

  lemma SearchFindsShortest(s: string, ps: Pattern, from: nat, i: nat, e: nat)
    requires ps != [] && Find(s, ps[0], from) == Some(i) && PlaceFrom(s, ps, 1, i + |ps[0]|) == Some(e)
    ensures IsMatch(s, ps, i, e)
    ensures forall i', e' | from <= i' < i :: !IsMatch(s, ps, i', e')
    ensures forall e' | IsMatch(s, ps, i, e') :: e <= e'
  {
    PlacementMatches(s, ps, i, e);
    PlacementIsShortest(s, ps, i, e);
  }

  /** The first piece at `i` followed by a placement of the others is a match. */
  lemma PlacementMatches(s: string, ps: Pattern, i: nat, e: nat)
    requires ps != [] && StartsAt(s, i, ps[0]) && PlaceFrom(s, ps, 1, i + |ps[0]|) == Some(e)
    ensures IsMatch(s, ps, i, e)
  {
    PlaceFromFits(s, ps, 1, i + |ps[0]|);
  }

  /** No match from `i` ends before the placement found from `i`. */
  lemma PlacementIsShortest(s: string, ps: Pattern, i: nat, e: nat)
    requires ps != [] && PlaceFrom(s, ps, 1, i + |ps[0]|) == Some(e)
    ensures forall e' | IsMatch(s, ps, i, e') :: e <= e'
  {
    forall e' | IsMatch(s, ps, i, e') ensures e <= e' {
      PlaceFromEndsFirst(s, ps, 1, i + |ps[0]|, i + |ps[0]|, e');
    }
  }

  lemma SearchMissesNothing(s: string, ps: Pattern, from: nat)
    requires ps != [] && Search(s, ps, from).None?
    ensures forall i', e' | from <= i' :: !IsMatch(s, ps, i', e')
  {
    forall i', e' | from <= i' ensures !IsMatch(s, ps, i', e') {
      if IsMatch(s, ps, i', e') {
        var i := Find(s, ps[0], from).value;
        PlaceFromEndsFirst(s, ps, 1, i + |ps[0]|, i' + |ps[0]|, e');
        assert false;
      }
    }
  }

  /** Conversely, a match that is leftmost and shortest from `from` is exactly what the search returns. */
  lemma SearchFindsFirstMatch(s: string, ps: Pattern, from: nat, i: nat, e: nat)
    requires ps != [] && from <= i && IsMatch(s, ps, i, e)
    requires forall i', e' | from <= i' < i :: !IsMatch(s, ps, i', e')
    requires forall e' | IsMatch(s, ps, i, e') :: e <= e'
    ensures Search(s, ps, from) == Some((i, e))
  {
    SearchIsLeftmostShortest(s, ps, from);
    var (i0, e0) := Search(s, ps, from).value;
    assert IsMatch(s, ps, i0, e0);
    assert i0 == i;
    assert e0 == e;
  }

  /** The `n`-th match (from 0) of a global search `s.match(/.../g)[n]`, each search resuming where the previous match ended. */
  function NthMatch(s: string, ps: Pattern, n: nat, from: nat): (r: Option<(nat, nat)>)
    requires ps != []
    ensures r.Some? ==> from <= r.value.0 && r.value.0 + |ps[0]| <= r.value.1 <= |s|
    ensures r.Some? ==> StartsAt(s, r.value.0, ps[0])
    decreases n
  {
    match Search(s, ps, from)
    case None => None
    case Some((i, e)) => if n == 0 then Some((i, e)) else NthMatch(s, ps, n - 1, e)
  }

  /** Later matches of a global search start at or after the end of earlier ones. */
  lemma {:induction false} NthMatchesDoNotOverlap(s: string, ps: Pattern, n: nat, from: nat)
    requires ps != []
    requires NthMatch(s, ps, n + 1, from).Some?
    ensures NthMatch(s, ps, n, from).Some?
    ensures NthMatch(s, ps, n, from).value.1 <= NthMatch(s, ps, n + 1, from).value.0
    decreases n
  {
    var (i, e) := Search(s, ps, from).value;
    if n > 0 {
      NthMatchesDoNotOverlap(s, ps, n - 1, e);
    }
  }

  /** The text of the first match, `s.match(re)?.[0]`. */
  function MatchText(s: string, ps: Pattern): (r: Option<string>)
    requires ps != []
  {
    match Search(s, ps, 0)
    case None => None
    case Some((i, e)) => Some(s[i..e])
  }

  /** The text of the `n`-th match of a global search, `s.match(re_g)?.[n]`. */
  function NthMatchText(s: string, ps: Pattern, n: nat): (r: Option<string>)
    requires ps != []
    ensures r.Some? ==> |ps[0]| <= |r.value| && r.value[..|ps[0]|] == ps[0]
  {
    match NthMatch(s, ps, n, 0)
    case None => None
    case Some((i, e)) => Some(s[i..e])
  }
}
