/**
 * The nearest-neighbour route optimizer of src/App.tsx (`optimizeRoute`):
 * start at the first place, then repeatedly move the remaining place closest
 * to the tail of the path onto the path.
 */
module RouteOptimizer {
  import opened Types

  /**
   * Index of the candidate nearest to `from`, scanning left to right and
   * replacing the best only on a strictly smaller distance, so the first of
   * several equally near candidates wins.
   */
  function Nearest(dist: LegDistance, from: Coord, cands: seq<Place>): (k: nat)
    requires |cands| > 0
    ensures k < |cands|
    ensures forall j :: 0 <= j < |cands| ==>
      dist(from, cands[k].coordinates) <= dist(from, cands[j].coordinates)
    ensures forall j :: 0 <= j < k ==>
      dist(from, cands[j].coordinates) > dist(from, cands[k].coordinates)
    decreases |cands|
  {
    if |cands| == 1 then 0
    else
      var k := Nearest(dist, from, cands[..|cands| - 1]);
      if dist(from, cands[|cands| - 1].coordinates) < dist(from, cands[k].coordinates)
      then |cands| - 1
      else k
  }

  /** One more step of the scan: the prefix of length i + 1 against that of length i. */
  lemma NearestOfLonger(dist: LegDistance, from: Coord, cands: seq<Place>, i: nat)
    requires 0 < i < |cands|
    ensures var k := Nearest(dist, from, cands[..i]);
      Nearest(dist, from, cands[..i + 1])
        == if dist(from, cands[i].coordinates) < dist(from, cands[k].coordinates) then i else k
  {
    assert cands[..i + 1][..i] == cands[..i];
  }

  /** The two properties of Nearest's contract single out its result. */
  lemma NearestIsUnique(dist: LegDistance, from: Coord, cands: seq<Place>, k: nat)
    requires k < |cands|
    requires forall j :: 0 <= j < |cands| ==>
      dist(from, cands[k].coordinates) <= dist(from, cands[j].coordinates)
    requires forall j :: 0 <= j < k ==>
      dist(from, cands[j].coordinates) > dist(from, cands[k].coordinates)
    ensures k == Nearest(dist, from, cands)
  {
  }

  /** `s.splice(k, 1)`: the sequence without its element at `k`, order kept. */
  function Remove(s: seq<Place>, k: nat): (r: seq<Place>)
    requires k < |s|
    ensures |r| == |s| - 1
    ensures forall j :: 0 <= j < k ==> r[j] == s[j]
    ensures forall j :: k <= j < |r| ==> r[j] == s[j + 1]
  {
    s[..k] + s[k + 1..]
  }

  /** The path the optimizer's while loop builds from `path` and `remaining`. */
  function Greedy(dist: LegDistance, path: seq<Place>, remaining: seq<Place>): seq<Place>
    requires |path| > 0
    decreases |remaining|
  {
    if remaining == [] then path
    else
      var k := Nearest(dist, path[|path| - 1].coordinates, remaining);
      Greedy(dist, path + [remaining[k]], Remove(remaining, k))
  }

  /** What `optimizeRoute` returns for `places`. */
  function NearestNeighbour(dist: LegDistance, places: seq<Place>): seq<Place>
  {
    if |places| <= 1 then places else Greedy(dist, [places[0]], places[1..])
  }

  /** `optimizeRoute` (src/App.tsx): the while loop with its inner argmin scan. */
  method Optimize(dist: LegDistance, places: seq<Place>) returns (optimized: seq<Place>)
    ensures optimized == NearestNeighbour(dist, places)
  {
    if |places| <= 1 {
      return places;
    }
    optimized := [places[0]];
    var remaining := places[1..];
    while |remaining| > 0
      invariant |optimized| > 0
      invariant Greedy(dist, optimized, remaining) == NearestNeighbour(dist, places)
      decreases |remaining|
    {
      var current := optimized[|optimized| - 1];
      var nearestIndex := 0;
      var nearestDistance := dist(current.coordinates, remaining[0].coordinates);
      assert remaining[..1] == [remaining[0]];
      for i := 1 to |remaining|
        invariant nearestIndex == Nearest(dist, current.coordinates, remaining[..i])
        invariant nearestDistance == dist(current.coordinates, remaining[nearestIndex].coordinates)
      {
        NearestOfLonger(dist, current.coordinates, remaining, i);
        var distance := dist(current.coordinates, remaining[i].coordinates);
        if distance < nearestDistance {
          nearestDistance := distance;
          nearestIndex := i;
        }
      }
      assert remaining[..|remaining|] == remaining;
      assert Greedy(dist, optimized, remaining)
          == Greedy(dist, optimized + [remaining[nearestIndex]], Remove(remaining, nearestIndex));
      optimized := optimized + [remaining[nearestIndex]];
      remaining := remaining[..nearestIndex] + remaining[nearestIndex + 1..];
    }
  }

  // ---------------------------------------------------------------------
  // Properties of the greedy path

  lemma {:induction false} GreedyLength(dist: LegDistance, path: seq<Place>, remaining: seq<Place>)
    requires |path| > 0
    ensures |Greedy(dist, path, remaining)| == |path| + |remaining|
    decreases |remaining|
  {
    if remaining != [] {
      var k := Nearest(dist, path[|path| - 1].coordinates, remaining);
      var path' := path + [remaining[k]];
      var rest := Remove(remaining, k);
      assert Greedy(dist, path, remaining) == Greedy(dist, path', rest);
      GreedyLength(dist, path', rest);
    }
  }

  lemma {:induction false} GreedyPrefix(dist: LegDistance, path: seq<Place>, remaining: seq<Place>)
    requires |path| > 0
    ensures |Greedy(dist, path, remaining)| >= |path|
    ensures Greedy(dist, path, remaining)[..|path|] == path
    decreases |remaining|
  {
    if remaining != [] {
      var k := Nearest(dist, path[|path| - 1].coordinates, remaining);
      var path' := path + [remaining[k]];
      var rest := Remove(remaining, k);
      var r := Greedy(dist, path', rest);
      assert Greedy(dist, path, remaining) == r;
      GreedyPrefix(dist, path', rest);
      assert r[..|path|] == r[..|path'|][..|path|];
    }
  }

  lemma {:induction false} GreedyMultiset(dist: LegDistance, path: seq<Place>, remaining: seq<Place>)
    requires |path| > 0
    ensures multiset(Greedy(dist, path, remaining)) == multiset(path) + multiset(remaining)
    decreases |remaining|
  {
    if remaining != [] {
      var k := Nearest(dist, path[|path| - 1].coordinates, remaining);
      var x := remaining[k];
      var rest := Remove(remaining, k);
      assert Greedy(dist, path, remaining) == Greedy(dist, path + [x], rest);
      GreedyMultiset(dist, path + [x], rest);
      RemoveMultiset(remaining, k);
      assert multiset(path + [x]) == multiset(path) + multiset{x};
    }
  }

  lemma RemoveMultiset(s: seq<Place>, k: nat)
    requires k < |s|
    ensures multiset(Remove(s, k)) + multiset{s[k]} == multiset(s)
  {
    assert s == s[..k] + [s[k]] + s[k + 1..];
  }

  lemma GreedyPermutation(dist: LegDistance, path: seq<Place>, remaining: seq<Place>)
    requires |path| > 0
    ensures |Greedy(dist, path, remaining)| == |path| + |remaining|
    ensures Greedy(dist, path, remaining)[..|path|] == path
    ensures multiset(Greedy(dist, path, remaining)) == multiset(path) + multiset(remaining)
  {
    GreedyLength(dist, path, remaining);
    GreedyPrefix(dist, path, remaining);
    GreedyMultiset(dist, path, remaining);
  }

  /** The places still to visit when the path has grown to length `i`. */
  lemma GreedyTail(dist: LegDistance, path: seq<Place>, remaining: seq<Place>)
    requires |path| > 0
    ensures |Greedy(dist, path, remaining)| == |path| + |remaining|
    ensures multiset(Greedy(dist, path, remaining)[|path|..]) == multiset(remaining)
  {
    var r := Greedy(dist, path, remaining);
    GreedyPermutation(dist, path, remaining);
    assert r == r[..|path|] + r[|path|..];
    assert multiset(r) == multiset(path) + multiset(r[|path|..]);
    assert multiset(r[|path|..]) == multiset(r) - multiset(path);
  }

  /** Every appended place is a nearest one, among those left, to the place before it. */
  lemma {:induction false} GreedyChoosesNearest(dist: LegDistance, path: seq<Place>, remaining: seq<Place>, i: nat, j: nat)
    requires |path| > 0
    requires |path| <= i <= j < |Greedy(dist, path, remaining)|
    ensures var r := Greedy(dist, path, remaining);
      dist(r[i - 1].coordinates, r[i].coordinates) <= dist(r[i - 1].coordinates, r[j].coordinates)
    decreases |remaining|
  {
    GreedyPermutation(dist, path, remaining);
    var r := Greedy(dist, path, remaining);
    var k := Nearest(dist, path[|path| - 1].coordinates, remaining);
    var path' := path + [remaining[k]];
    GreedyPermutation(dist, path', Remove(remaining, k));
    if i == |path| {
      assert r[i] == path'[i] == remaining[k];
      assert r[i - 1] == path[|path| - 1];
      GreedyTail(dist, path, remaining);
      assert r[j] in multiset(r[|path|..]) by { assert r[|path|..][j - |path|] == r[j]; }
      var m :| 0 <= m < |remaining| && remaining[m] == r[j];
    } else {
      assert r[i - 1] == Greedy(dist, path', Remove(remaining, k))[i - 1];
      GreedyChoosesNearest(dist, path', Remove(remaining, k), i, j);
    }
  }

  // ---------------------------------------------------------------------
  // Tie-breaking: the earlier place of the input wins

  predicate Distinct(s: seq<Place>) {
    forall a, b :: 0 <= a < b < |s| ==> s[a] != s[b]
  }

  /** Position of `x` in `s` (its first occurrence). */
  function IndexIn(s: seq<Place>, x: Place): (n: nat)
    requires x in s
    ensures n < |s| && s[n] == x
    ensures forall m :: 0 <= m < n ==> s[m] != x
  {
    if s[0] == x then 0 else 1 + IndexIn(s[1..], x)
  }

  /** `remaining` lists places of `places` in the order they have there. */
  predicate InInputOrder(remaining: seq<Place>, places: seq<Place>) {
    && (forall a :: 0 <= a < |remaining| ==> remaining[a] in places)
    && (forall a, b :: 0 <= a < b < |remaining| ==>
          IndexIn(places, remaining[a]) < IndexIn(places, remaining[b]))
  }

  lemma RemoveKeepsInputOrder(remaining: seq<Place>, k: nat, places: seq<Place>)
    requires k < |remaining| && InInputOrder(remaining, places)
    ensures InInputOrder(Remove(remaining, k), places)
  {
    var rest := Remove(remaining, k);
    forall a, b | 0 <= a < b < |rest|
      ensures IndexIn(places, rest[a]) < IndexIn(places, rest[b])
    {
      var a' := if a < k then a else a + 1;
      var b' := if b < k then b else b + 1;
      assert rest[a] == remaining[a'] && rest[b] == remaining[b'] && a' < b';
    }
  }

  /** A place appended after step |path| was, at that step, a candidate that
      did not win: it was at some other index of `remaining`. */
  lemma {:induction false} LaterPlaceWasCandidate(dist: LegDistance, path: seq<Place>, remaining: seq<Place>, j: nat)
    requires |path| > 0 && remaining != []
    requires |path| < j < |Greedy(dist, path, remaining)|
    ensures var k := Nearest(dist, path[|path| - 1].coordinates, remaining);
      exists m :: 0 <= m < |remaining| && m != k && remaining[m] == Greedy(dist, path, remaining)[j]
  {
    var k := Nearest(dist, path[|path| - 1].coordinates, remaining);
    var path' := path + [remaining[k]];
    var rest := Remove(remaining, k);
    assert Greedy(dist, path, remaining) == Greedy(dist, path', rest);
    AppendedFromRemaining(dist, path', rest, j);
    var x := Greedy(dist, path', rest)[j];
    var m' := IndexIn(rest, x);
    var m := if m' < k then m' else m' + 1;
    assert remaining[m] == x;
  }

  /** Every place after the starting path is one of the places that remained. */
  lemma AppendedFromRemaining(dist: LegDistance, path: seq<Place>, remaining: seq<Place>, j: nat)
    requires |path| > 0 && |path| <= j < |Greedy(dist, path, remaining)|
    ensures Greedy(dist, path, remaining)[j] in remaining
  {
    var r := Greedy(dist, path, remaining);
    GreedyTail(dist, path, remaining);
    assert r[|path|..][j - |path|] == r[j];
    assert r[j] in multiset(r[|path|..]);
  }

  lemma {:induction false} GreedyBreaksTiesByInputOrder(dist: LegDistance, places: seq<Place>,
                                                        path: seq<Place>, remaining: seq<Place>, i: nat, j: nat)
    requires |path| > 0 && InInputOrder(remaining, places)
    requires |path| <= i < j < |Greedy(dist, path, remaining)|
    requires var r := Greedy(dist, path, remaining);
      dist(r[i - 1].coordinates, r[j].coordinates) == dist(r[i - 1].coordinates, r[i].coordinates)
    ensures var r := Greedy(dist, path, remaining);
      r[i] in places && r[j] in places && IndexIn(places, r[i]) < IndexIn(places, r[j])
    decreases |remaining|
  {
    GreedyLength(dist, path, remaining);
    var k := Nearest(dist, path[|path| - 1].coordinates, remaining);
    var path' := path + [remaining[k]];
    var rest := Remove(remaining, k);
    var r := Greedy(dist, path', rest);
    assert Greedy(dist, path, remaining) == r;
    GreedyPrefix(dist, path', rest);
    if i == |path| {
      assert r[i] == path'[i] == remaining[k];
      assert r[i - 1] == path'[i - 1] == path[|path| - 1];
      LaterPlaceWasCandidate(dist, path, remaining, j);
      var m :| 0 <= m < |remaining| && m != k && remaining[m] == r[j];
      assert k < m;
    } else {
      RemoveKeepsInputOrder(remaining, k, places);
      GreedyBreaksTiesByInputOrder(dist, places, path', rest, i, j);
    }
  }

  // ---------------------------------------------------------------------
  // What optimizeRoute promises

  /** Inputs of length at most 1 come back unchanged; otherwise the result is
      a permutation of the input that starts with the input's first place. */
  lemma NearestNeighbourPermutes(dist: LegDistance, places: seq<Place>)
    ensures var r := NearestNeighbour(dist, places);
      && |r| == |places|
      && multiset(r) == multiset(places)
      && (|places| <= 1 ==> r == places)
      && (|places| > 0 ==> r[0] == places[0])
  {
    if |places| > 1 {
      GreedyPermutation(dist, [places[0]], places[1..]);
      assert places == [places[0]] + places[1..];
    }
  }

  /** Each place after the first is a nearest one to its predecessor among the
      places that come after it. */
  lemma NearestNeighbourIsGreedy(dist: LegDistance, places: seq<Place>, i: nat, j: nat)
    requires 1 <= i <= j < |NearestNeighbour(dist, places)|
    ensures var r := NearestNeighbour(dist, places);
      dist(r[i - 1].coordinates, r[i].coordinates) <= dist(r[i - 1].coordinates, r[j].coordinates)
  {
    GreedyChoosesNearest(dist, [places[0]], places[1..], i, j);
  }

  /** Of two equally near candidates, the one that comes first in the input is
      taken first (for inputs without repeated places). */
  lemma NearestNeighbourTies(dist: LegDistance, places: seq<Place>, i: nat, j: nat)
    requires Distinct(places)
    requires 1 <= i < j < |NearestNeighbour(dist, places)|
    requires var r := NearestNeighbour(dist, places);
      dist(r[i - 1].coordinates, r[j].coordinates) == dist(r[i - 1].coordinates, r[i].coordinates)
    ensures var r := NearestNeighbour(dist, places);
      r[i] in places && r[j] in places && IndexIn(places, r[i]) < IndexIn(places, r[j])
  {
    var rest := places[1..];
    assert InInputOrder(rest, places) by {
      forall a | 0 <= a < |rest| ensures rest[a] in places && IndexIn(places, rest[a]) == a + 1 {
        assert rest[a] == places[a + 1];
      }
    }
    GreedyBreaksTiesByInputOrder(dist, places, [places[0]], rest, i, j);
  }
}
