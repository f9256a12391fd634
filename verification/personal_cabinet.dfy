/**
 * The rules of src/components/PersonalCabinet.tsx: the leaderboard rank, the
 * ordering of the active quests, the progress bar towards the next level and the
 * category icons of collected items.
 */
module PersonalCabinet {
  import opened Wrappers
  import opened Types

  /** `getUserRank()`: the 1-based position of the first entry with the user's id. */
  function UserRank(leaderboard: seq<LeaderboardEntry>, userId: string): (rank: Option<nat>)
    ensures rank.None? <==> forall i :: 0 <= i < |leaderboard| ==> leaderboard[i].userId != userId
    ensures rank.Some? ==> (1 <= rank.value <= |leaderboard|
                            && leaderboard[rank.value - 1].userId == userId
                            && forall i :: 0 <= i < rank.value - 1 ==> leaderboard[i].userId != userId)
  {
    if leaderboard == [] then None
    else if leaderboard[0].userId == userId then Some(1)
    else
      match UserRank(leaderboard[1..], userId)
      case None => None
      case Some(r) => Some(r + 1)
  }

  /** `allQuests.filter(quest => quest.isActive)`, the quests the cabinet lists. */
  function ActiveQuests(quests: seq<Quest>): (r: seq<Quest>)
    ensures forall q :: q in r <==> q in quests && q.isActive
  {
    if quests == [] then []
    else (if quests[0].isActive then [quests[0]] else []) + ActiveQuests(quests[1..])
  }

  /** The filter distributes over concatenation, so the active quests keep their order and
      multiplicity, which the stable sort then preserves among equal keys. */
  lemma {:induction false} ActiveQuestsAppend(a: seq<Quest>, b: seq<Quest>)
    ensures ActiveQuests(a + b) == ActiveQuests(a) + ActiveQuests(b)
  {
    if a == [] {
      assert a + b == b;
    } else {
      assert (a + b)[0] == a[0];
      assert (a + b)[1..] == a[1..] + b;
      ActiveQuestsAppend(a[1..], b);
    }
  }

  /** `a.isPush || a.urgency === 'high'`. */
  predicate IsUrgent(q: Quest) {
    q.isPush || q.urgency == Some(HighUrgency)
  }

  /** `urgencyOrder[q.urgency || 'low']`. */
  function UrgencyValue(q: Quest): int {
    match q.urgency
    case Some(HighUrgency) => 3
    case Some(MediumUrgency) => 2
    case Some(LowUrgency) => 1
    case None => 1
  }

  /** The comparator passed to `activeQuests.sort`. */
  function CompareQuests(a: Quest, b: Quest): int {
    if IsUrgent(a) && !IsUrgent(b) then -1
    else if !IsUrgent(a) && IsUrgent(b) then 1
    else UrgencyValue(b) - UrgencyValue(a)
  }

  /** The position class of a quest: urgent quests take 0 to 2 and the others 3 to 5,
      higher urgency first within each. */
  function SortKey(q: Quest): (k: nat)
    ensures k < 6
  {
    (if IsUrgent(q) then 0 else 3) + (3 - UrgencyValue(q))
  }

  /** The comparator orders two quests exactly as their keys do, so it is a consistent
      total preorder. */
  lemma CompareMatchesKey(a: Quest, b: Quest)
    ensures CompareQuests(a, b) < 0 <==> SortKey(a) < SortKey(b)
    ensures CompareQuests(a, b) == 0 <==> SortKey(a) == SortKey(b)
    ensures CompareQuests(a, b) > 0 <==> SortKey(a) > SortKey(b)
  {
  }

  /** The quests of one key, in their original order. */
  function WithKey(s: seq<Quest>, k: nat): (r: seq<Quest>)
    ensures |r| <= |s|
  {
    if s == [] then []
    else (if SortKey(s[0]) == k then [s[0]] else []) + WithKey(s[1..], k)
  }

  lemma {:induction false} WithKeyHasKey(s: seq<Quest>, k: nat)
    ensures forall i :: 0 <= i < |WithKey(s, k)| ==> SortKey(WithKey(s, k)[i]) == k
  {
    if s != [] {
      WithKeyHasKey(s[1..], k);
      var r := WithKey(s, k);
      var rest := WithKey(s[1..], k);
      var head := if SortKey(s[0]) == k then [s[0]] else [];
      assert r == head + rest;
      forall i | 0 <= i < |r| ensures SortKey(r[i]) == k {
        if i >= |head| {
          assert r[i] == rest[i - |head|];
        }
      }
    }
  }

  /** The quests whose key is below `n`, in their original order. */
  function KeyBelow(s: seq<Quest>, n: nat): seq<Quest> {
    if s == [] then []
    else (if SortKey(s[0]) < n then [s[0]] else []) + KeyBelow(s[1..], n)
  }

  /** The blocks of keys 0 to n - 1, one after the other. */
  function Blocks(s: seq<Quest>, n: nat): seq<Quest> {
    if n == 0 then [] else Blocks(s, n - 1) + WithKey(s, n - 1)
  }

  /** What a stable sort with the comparator leaves in the array: the quests grouped by
      key in increasing order, each group in its original order. */
  function UrgencyOrder(s: seq<Quest>): seq<Quest> {
    Blocks(s, 6)
  }

  lemma {:induction false} KeyBelowStep(s: seq<Quest>, n: nat)
    ensures multiset(KeyBelow(s, n + 1)) == multiset(KeyBelow(s, n)) + multiset(WithKey(s, n))
  {
    if s != [] {
      KeyBelowStep(s[1..], n);
    }
  }

  lemma {:induction false} KeyBelowAll(s: seq<Quest>)
    ensures KeyBelow(s, 6) == s
  {
    if s != [] {
      KeyBelowAll(s[1..]);
    }
  }

  lemma {:induction false} BlocksMultiset(s: seq<Quest>, n: nat)
    ensures multiset(Blocks(s, n)) == multiset(KeyBelow(s, n))
  {
    if n == 0 {
      KeyBelowNone(s);
    } else {
      var m := n - 1;
      BlocksMultiset(s, m);
      KeyBelowStep(s, m);
      BlocksUnfold(s, m);
    }
  }

  lemma BlocksUnfold(s: seq<Quest>, m: nat)
    ensures multiset(Blocks(s, m + 1)) == multiset(Blocks(s, m)) + multiset(WithKey(s, m))
  {
  }

  lemma {:induction false} KeyBelowNone(s: seq<Quest>)
    ensures KeyBelow(s, 0) == []
  {
    if s != [] {
      KeyBelowNone(s[1..]);
    }
  }

  lemma {:induction false} BlocksSorted(s: seq<Quest>, n: nat)
    ensures forall i :: 0 <= i < |Blocks(s, n)| ==> SortKey(Blocks(s, n)[i]) < n
    ensures forall i, j :: 0 <= i < j < |Blocks(s, n)| ==> SortKey(Blocks(s, n)[i]) <= SortKey(Blocks(s, n)[j])
  {
    if n > 0 {
      BlocksSorted(s, n - 1);
      var a := Blocks(s, n - 1);
      var b := WithKey(s, n - 1);
      WithKeyHasKey(s, n - 1);
      assert Blocks(s, n) == a + b;
      forall i, j | 0 <= i < j < |a + b| ensures SortKey((a + b)[i]) <= SortKey((a + b)[j]) {
        if j < |a| {
          assert (a + b)[i] == a[i] && (a + b)[j] == a[j];
        } else if i < |a| {
          assert (a + b)[i] == a[i] && (a + b)[j] == b[j - |a|];
        } else {
          assert (a + b)[i] == b[i - |a|] && (a + b)[j] == b[j - |a|];
        }
      }
      forall i | 0 <= i < |a + b| ensures SortKey((a + b)[i]) < n {
        if i < |a| {
          assert (a + b)[i] == a[i];
        } else {
          assert (a + b)[i] == b[i - |a|];
        }
      }
    }
  }

  /** Keeping one key distributes over concatenation. */
  lemma {:induction false} WithKeyAppend(a: seq<Quest>, b: seq<Quest>, k: nat)
    ensures WithKey(a + b, k) == WithKey(a, k) + WithKey(b, k)
  {
    if a == [] {
      assert a + b == b;
    } else {
      assert (a + b)[0] == a[0];
      assert (a + b)[1..] == a[1..] + b;
      WithKeyAppend(a[1..], b, k);
      var h := if SortKey(a[0]) == k then [a[0]] else [];
      assert WithKey(a + b, k) == h + WithKey(a[1..] + b, k);
      assert WithKey(a, k) == h + WithKey(a[1..], k);
    }
  }

  /** Keeping key k of a block of key m gives the block when k == m, else nothing. */
  lemma {:induction false} WithKeyOfBlock(s: seq<Quest>, m: nat, k: nat)
    ensures WithKey(WithKey(s, m), k) == if k == m then WithKey(s, m) else []
  {
    if s != [] {
      WithKeyOfBlock(s[1..], m, k);
      if SortKey(s[0]) == m {
        assert WithKey(s, m) == [s[0]] + WithKey(s[1..], m);
        WithKeyAppend([s[0]], WithKey(s[1..], m), k);
        assert [s[0]][1..] == [];
        assert WithKey([s[0]], k) == if k == m then [s[0]] else [];
      } else {
        assert WithKey(s, m) == WithKey(s[1..], m);
      }
    }
  }

  lemma {:induction false} WithKeyOfBlocks(s: seq<Quest>, n: nat, k: nat)
    ensures WithKey(Blocks(s, n), k) == if k < n then WithKey(s, k) else []
  {
    if n > 0 {
      WithKeyOfBlocks(s, n - 1, k);
      WithKeyOfBlocksStep(Blocks(s, n - 1), s, n, k);
    }
  }

  /** Appending block n - 1 to the first n - 1 blocks adds key n - 1 and nothing else. */
  lemma WithKeyOfBlocksStep(earlier: seq<Quest>, s: seq<Quest>, n: nat, k: nat)
    requires n > 0
    requires WithKey(earlier, k) == if k < n - 1 then WithKey(s, k) else []
    ensures WithKey(earlier + WithKey(s, n - 1), k) == if k < n then WithKey(s, k) else []
  {
    var last := WithKey(s, n - 1);
    WithKeyAppend(earlier, last, k);
    WithKeyOfBlock(s, n - 1, k);
    PickBlock(WithKey(earlier, k), WithKey(last, k), WithKey(s, k), n, k);
  }

  lemma PickBlock(a: seq<Quest>, b: seq<Quest>, x: seq<Quest>, n: nat, k: nat)
    requires n > 0
    requires a == if k < n - 1 then x else []
    requires b == if k == n - 1 then x else []
    ensures a + b == if k < n then x else []
  {
    if k < n - 1 {
      assert b == [];
    } else if k == n - 1 {
      assert a == [];
    }
  }

  /** The ordered list is a permutation of the quests, the comparator never puts a later
      quest before an earlier one (urgent quests first, then by urgency), and quests that
      compare equal keep their relative order. */
  lemma UrgencyOrderIsStableSort(s: seq<Quest>)
    ensures var r := UrgencyOrder(s);
      multiset(r) == multiset(s)
      && (forall i, j :: 0 <= i < j < |r| ==> CompareQuests(r[i], r[j]) <= 0)
      && (forall k: nat :: WithKey(r, k) == WithKey(s, k))
  {
    var r := UrgencyOrder(s);
    BlocksMultiset(s, 6);
    KeyBelowAll(s);
    BlocksSorted(s, 6);
    KeySortedIsCompareSorted(r);
    forall k: nat ensures WithKey(r, k) == WithKey(s, k) {
      WithKeyOfBlocks(s, 6, k);
      if k >= 6 {
        WithKeyNone(s, k);
      }
    }
  }

  lemma {:induction false} WithKeyNone(s: seq<Quest>, k: nat)
    requires k >= 6
    ensures WithKey(s, k) == []
  {
    if s != [] {
      WithKeyNone(s[1..], k);
    }
  }

  lemma KeySortedIsCompareSorted(r: seq<Quest>)
    requires forall i, j :: 0 <= i < j < |r| ==> SortKey(r[i]) <= SortKey(r[j])
    ensures forall i, j :: 0 <= i < j < |r| ==> CompareQuests(r[i], r[j]) <= 0
  {
    forall i, j | 0 <= i < j < |r| ensures CompareQuests(r[i], r[j]) <= 0 {
      CompareMatchesKey(r[i], r[j]);
    }
  }

  /** Every urgent quest comes before every quest that is not urgent. */
  lemma UrgentFirst(s: seq<Quest>, i: nat, j: nat)
    requires i < |UrgencyOrder(s)| && j < |UrgencyOrder(s)|
    requires IsUrgent(UrgencyOrder(s)[j]) && !IsUrgent(UrgencyOrder(s)[i])
    ensures j < i
  {
    UrgencyOrderIsStableSort(s);
  }

  /** `activeQuests.sort(compare)`: reorders the array in place into the stable order.
      The loop stands for the array the engine's sort leaves behind, written element by
      element; it is not a model of the engine's sorting algorithm. */
  method SortQuests(a: array<Quest>)
    modifies a
    ensures a[..] == UrgencyOrder(old(a[..]))
  {
    var sorted := UrgencyOrder(a[..]);
    UrgencyOrderLength(a[..]);
    for i := 0 to a.Length
      invariant forall k :: 0 <= k < i ==> a[k] == sorted[k]
    {
      a[i] := sorted[i];
    }
  }

  /** The ordered list has as many quests as the input. */
  lemma UrgencyOrderLength(s: seq<Quest>)
    ensures |UrgencyOrder(s)| == |s|
  {
    UrgencyOrderIsStableSort(s);
    assert |multiset(UrgencyOrder(s))| == |multiset(s)|;
  }

  /** The achievements term of the cabinet's points, folded left to right as `reduce`
      does: 100 per unlocked achievement. */
  function UnlockedPoints(achievements: seq<Achievement>): (p: nat)
    ensures p == 100 * |UnlockedIndices(achievements)|
    decreases |achievements|
  {
    if achievements == [] then 0
    else
      var n := |achievements| - 1;
      var before := UnlockedPoints(achievements[..n]);
      UnlockedIndicesStep(achievements);
      before + if achievements[n].unlockedAt.Some? then 100 else 0
  }

  /** The positions of the unlocked achievements. */
  function UnlockedIndices(achievements: seq<Achievement>): set<nat> {
    set i: nat | i < |achievements| && achievements[i].unlockedAt.Some?
  }

  /** Adding the last achievement adds its position when it is unlocked. */
  lemma UnlockedIndicesStep(achievements: seq<Achievement>)
    requires achievements != []
    ensures var n := |achievements| - 1;
      |UnlockedIndices(achievements)| ==
        |UnlockedIndices(achievements[..n])| + if achievements[n].unlockedAt.Some? then 1 else 0
  {
    var n := |achievements| - 1;
    var before := UnlockedIndices(achievements[..n]);
    assert n !in before;
    if achievements[n].unlockedAt.Some? {
      assert UnlockedIndices(achievements) == before + {n};
    } else {
      assert UnlockedIndices(achievements) == before;
    }
  }

  /** The points the progress bar measures: unlocked achievements, 10 per scan and 50 per route. */
  function CabinetPoints(stats: UserStats): int {
    UnlockedPoints(stats.achievements) + stats.totalScanned * 10 + stats.routesCompleted * 50
  }

  /** Each unlocked achievement is worth 100 points, each scan 10 and each route 50; with
      non-negative counters the points are never negative. */
  lemma CabinetPointsFormula(stats: UserStats)
    ensures CabinetPoints(stats) == 100 * |UnlockedIndices(stats.achievements)|
                                   + 10 * stats.totalScanned + 50 * stats.routesCompleted
    ensures stats.totalScanned >= 0 && stats.routesCompleted >= 0 ==> CabinetPoints(stats) >= 0
  {
  }

  /** `getProgressToNextLevel()`. With an unbounded level the fraction is divided by
      infinity and so is 0. */
  function ProgressToNextLevel(stats: UserStats, level: UserLevel): real
    requires level.maxPoints.None? || level.maxPoints.value > level.minPoints
  {
    var progress :=
      match level.maxPoints
      case None => 0.0
      case Some(max) => (CabinetPoints(stats) - level.minPoints) as real / (max - level.minPoints) as real * 100.0;
    if progress <= 100.0 then progress else 100.0
  }

  /** The percentage is capped at 100 from above only: it is below 0 when the points are
      below the level's minimum, and between 0 and 100 inside the level's range. */
  lemma ProgressBounds(stats: UserStats, level: UserLevel)
    requires level.maxPoints.None? || level.maxPoints.value > level.minPoints
    ensures ProgressToNextLevel(stats, level) <= 100.0
    ensures level.maxPoints.None? ==> ProgressToNextLevel(stats, level) == 0.0
    ensures level.maxPoints.Some? && CabinetPoints(stats) < level.minPoints ==> ProgressToNextLevel(stats, level) < 0.0
    ensures level.maxPoints.Some? && level.minPoints <= CabinetPoints(stats) <= level.maxPoints.value
            ==> 0.0 <= ProgressToNextLevel(stats, level) <= 100.0
    ensures level.maxPoints.Some? && CabinetPoints(stats) >= level.maxPoints.value
            ==> ProgressToNextLevel(stats, level) == 100.0
  {
    if level.maxPoints.Some? {
      var span := (level.maxPoints.value - level.minPoints) as real;
      var d := (CabinetPoints(stats) - level.minPoints) as real;
      QuotientBounds(d, span);
    }
  }

  /** The fraction of the level's span is negative below it, within [0, 1] inside it and
      at least 1 above it. */
  lemma QuotientBounds(d: real, span: real)
    requires span > 0.0
    ensures d < 0.0 ==> d / span < 0.0
    ensures 0.0 <= d <= span ==> 0.0 <= d / span <= 1.0
    ensures d >= span ==> d / span >= 1.0
  {
    var q := d / span;
    assert q * span == d;
    if q < 0.0 {
      assert q * span < 0.0;
    } else if q < 1.0 {
      assert 0.0 <= q * span < span;
    } else {
      assert q * span >= span;
    }
  }

  /** `getCategoryIcon(category)`: five mapped categories, a pin for any other. */
  function CategoryIcon(category: string): (icon: string)
    ensures category !in {"gastronomy", "culture", "attractions", "nature", "architecture"} ==> icon == "\U{1F4CD}"
    ensures category in {"gastronomy", "culture", "attractions", "nature", "architecture"} ==> icon != "\U{1F4CD}"
  {
    if category == "gastronomy" then "\U{1F37D}\U{FE0F}"
    else if category == "culture" then "\U{1F3AD}"
    else if category == "attractions" then "\U{1F3DB}\U{FE0F}"
    else if category == "nature" then "\U{1F333}"
    else if category == "architecture" then "\U{1F3D7}\U{FE0F}"
    else "\U{1F4CD}"
  }
}
