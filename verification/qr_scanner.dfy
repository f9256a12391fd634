/**
 * The scan transition of src/components/QRScanner.tsx (`simulateScan`): the
 * collection de-duplication, the scan counter, the three tracked achievements and
 * the coupon rules, and the achievement percentage. The scanned place, the value of
 * `Math.random()` that picks the restaurant and `Date.now()` are parameters.
 */
module QRScanner {
  import opened Wrappers
  import opened Types
  import Text
  import Numbers

  const DayMillis: int := 24 * 60 * 60 * 1000

  /** The restaurants a five-scan coupon is drawn from. */
  const Restaurants: seq<string> := ["Ресторан \"Пушкинъ\"", "Кафе \"Саратов\"", "Пиццерия \"Волга\""]

  /** What a scan does: nothing for a place already collected, else the new collection and stats. */
  datatype ScanResult = AlreadyCollected | Scanned(collection: seq<CollectionItem>, stats: UserStats)

  /** `collection.find(item => item.placeId === placeId)` finds an item. */
  predicate InCollection(collection: seq<CollectionItem>, placeId: string) {
    exists i :: 0 <= i < |collection| && collection[i].placeId == placeId
  }

  /** No place is collected twice. */
  predicate DistinctPlaceIds(collection: seq<CollectionItem>) {
    forall i, j :: 0 <= i < j < |collection| ==> collection[i].placeId != collection[j].placeId
  }

  /** `places.find(p => p.id === id)`: the first catalog place with that id. */
  function FindPlace(catalog: seq<Place>, id: string): (r: Option<Place>)
    ensures r.Some? ==> r.value in catalog && r.value.id == id
    ensures r.None? <==> forall p :: p in catalog ==> p.id != id
  {
    if catalog == [] then None
    else if catalog[0].id == id then Some(catalog[0])
    else FindPlace(catalog[1..], id)
  }

  /** The catalog place of the item has the category. */
  predicate OfCategory(catalog: seq<Place>, item: CollectionItem, category: PlaceCategory) {
    var p := FindPlace(catalog, item.placeId);
    p.Some? && p.value.category == category
  }

  /** `collection.filter(item => places.find(...)?.category === category).length`. */
  function CategoryCount(collection: seq<CollectionItem>, catalog: seq<Place>, category: PlaceCategory): (n: nat)
    ensures n <= |collection|
  {
    if collection == [] then 0
    else (if OfCategory(catalog, collection[0], category) then 1 else 0)
         + CategoryCount(collection[1..], catalog, category)
  }

  /** Appending an item adds one to the count exactly when its place has the category. */
  lemma {:induction false} CategoryCountAppend(collection: seq<CollectionItem>, item: CollectionItem,
                                              catalog: seq<Place>, category: PlaceCategory)
    ensures CategoryCount(collection + [item], catalog, category)
            == CategoryCount(collection, catalog, category) + (if OfCategory(catalog, item, category) then 1 else 0)
  {
    if collection == [] {
      assert [item][1..] == [];
    } else {
      assert (collection + [item])[1..] == collection[1..] + [item];
      CategoryCountAppend(collection[1..], item, catalog, category);
    }
  }

  /** The index of `achievements.find(a => a.id === id)`, or the length when there is none. */
  function AchievementIndex(achievements: seq<Achievement>, id: string): (k: nat)
    ensures k <= |achievements|
    ensures k < |achievements| ==> achievements[k].id == id
    ensures forall j :: 0 <= j < k ==> achievements[j].id != id
  {
    if achievements == [] then 0
    else if achievements[0].id == id then 0
    else 1 + AchievementIndex(achievements[1..], id)
  }

  /** Replacing entries by entries with the same ids leaves every lookup where it was. */
  lemma AchievementIndexSameIds(a: seq<Achievement>, b: seq<Achievement>, id: string)
    requires |a| == |b| && forall i :: 0 <= i < |a| ==> a[i].id == b[i].id
    ensures AchievementIndex(a, id) == AchievementIndex(b, id)
  {
  }

  /** The 'first-scan' rule: progress 1 and unlocked now, unless already unlocked. */
  function UnlockFirstScan(achievements: seq<Achievement>, now: nat): seq<Achievement> {
    var k := AchievementIndex(achievements, "first-scan");
    if k < |achievements| && achievements[k].unlockedAt.None?
    then achievements[k := achievements[k].(progress := 1, unlockedAt := Some(now))]
    else achievements
  }

  /** The counting rule of 'culture-lover' and 'gastronomy-expert': progress is the count,
      and an entry not yet unlocked is unlocked now once the count reaches the threshold. */
  function TrackCount(achievements: seq<Achievement>, id: string, count: nat, threshold: nat, now: nat)
    : seq<Achievement>
  {
    var k := AchievementIndex(achievements, id);
    if k < |achievements| then
      var a := achievements[k];
      achievements[k := a.(progress := count,
                           unlockedAt := if count >= threshold && a.unlockedAt.None? then Some(now) else a.unlockedAt)]
    else achievements
  }

  /** The achievements after a scan that produced `collection`. */
  function UpdatedAchievements(achievements: seq<Achievement>, collection: seq<CollectionItem>,
                               catalog: seq<Place>, now: nat): seq<Achievement>
  {
    var first := UnlockFirstScan(achievements, now);
    var culture := TrackCount(first, "culture-lover", CategoryCount(collection, catalog, Culture), 5, now);
    TrackCount(culture, "gastronomy-expert", CategoryCount(collection, catalog, Gastronomy), 10, now)
  }

  /** The item a scan of the place adds. */
  function NewItem(place: Place, now: nat): CollectionItem {
    CollectionItem(place.id + "-" + Text.NatToString(now), place.id, place.name,
                   PlaceCategoryId(place.category), now, None)
  }

  /** The coupon for the first scan. */
  function FirstScanCoupon(now: nat): Coupon {
    Coupon("coupon-first-" + Text.NatToString(now), "Кофейня \"Волжские зерна\"", 10,
           "Скидка 10% на первый кофе", now + 30 * DayMillis, "FIRST_SCAN_BONUS", false, None)
  }

  /** The coupon for every fifth scan. */
  function FiveScansCoupon(restaurant: string, total: int, now: nat): Coupon {
    Coupon("coupon-5scans-" + Text.NatToString(now), restaurant, 15,
           "Скидка 15% на основное блюдо", now + 14 * DayMillis, "SCAN5_" + Text.IntToString(total), false, None)
  }

  /** The coupons a scan that brings the counter to `total` appends, in order. */
  function EarnedCoupons(total: int, restaurantRandom: real, now: nat): seq<Coupon>
    requires 0.0 <= restaurantRandom < 1.0
  {
    (if total == 1 then [FirstScanCoupon(now)] else [])
    + (if total % 5 == 0
       then [FiveScansCoupon(Restaurants[Numbers.RandomIndex(restaurantRandom, |Restaurants|)], total, now)]
       else [])
  }

  /** `simulateScan()` for the chosen place as a value. */
  function ScanStep(collection: seq<CollectionItem>, stats: UserStats, place: Place, catalog: seq<Place>,
                    restaurantRandom: real, now: nat): ScanResult
    requires 0.0 <= restaurantRandom < 1.0
  {
    if InCollection(collection, place.id) then AlreadyCollected
    else
      var newCollection := collection + [NewItem(place, now)];
      var total := stats.totalScanned + 1;
      Scanned(newCollection, stats.(
        totalScanned := total,
        achievements := UpdatedAchievements(stats.achievements, newCollection, catalog, now),
        coupons := stats.coupons + EarnedCoupons(total, restaurantRandom, now)))
  }

  /** A place already in the collection changes nothing; any other place is appended
      as one new item carrying its id, name and category, and the counter rises by one. */
  lemma ScanAddsOneItem(collection: seq<CollectionItem>, stats: UserStats, place: Place, catalog: seq<Place>,
                        restaurantRandom: real, now: nat)
    requires 0.0 <= restaurantRandom < 1.0
    ensures var r := ScanStep(collection, stats, place, catalog, restaurantRandom, now);
      (r.AlreadyCollected? <==> InCollection(collection, place.id))
      && (r.Scanned? ==>
            |r.collection| == |collection| + 1
            && r.collection[..|collection|] == collection
            && r.collection[|collection|].placeId == place.id
            && r.collection[|collection|].name == place.name
            && r.collection[|collection|].category == PlaceCategoryId(place.category)
            && r.stats.totalScanned == stats.totalScanned + 1
            && r.stats.routesCompleted == stats.routesCompleted
            && r.stats.distanceWalked == stats.distanceWalked)
  {
    if !InCollection(collection, place.id) {
      var c := collection + [NewItem(place, now)];
      assert c[..|collection|] == collection;
    }
  }

  /** Scanning keeps a duplicate-free collection duplicate-free. */
  lemma ScanKeepsDistinct(collection: seq<CollectionItem>, stats: UserStats, place: Place, catalog: seq<Place>,
                          restaurantRandom: real, now: nat)
    requires 0.0 <= restaurantRandom < 1.0 && DistinctPlaceIds(collection)
    ensures var r := ScanStep(collection, stats, place, catalog, restaurantRandom, now);
      r.Scanned? ==> DistinctPlaceIds(r.collection)
  {
    if !InCollection(collection, place.id) {
      var c := collection + [NewItem(place, now)];
      forall i, j | 0 <= i < j < |c| ensures c[i].placeId != c[j].placeId {
        assert c[i] == collection[i];
        if j < |collection| {
          assert c[j] == collection[j];
        }
      }
    }
  }

  /** Each update keeps every entry's id and maximum and never moves an existing `unlockedAt`. */
  predicate KeepsIdsAndUnlocks(before: seq<Achievement>, after: seq<Achievement>) {
    |after| == |before|
    && (forall i :: 0 <= i < |after| ==> after[i].id == before[i].id && after[i].maxProgress == before[i].maxProgress)
    && (forall i :: 0 <= i < |after| && before[i].unlockedAt.Some? ==> after[i].unlockedAt == before[i].unlockedAt)
  }

  lemma KeepsTransitive(a: seq<Achievement>, b: seq<Achievement>, c: seq<Achievement>)
    requires KeepsIdsAndUnlocks(a, b) && KeepsIdsAndUnlocks(b, c)
    ensures KeepsIdsAndUnlocks(a, c)
  {
  }

  /** The achievement updates keep every entry's id and never move an existing `unlockedAt`:
      an unlocked achievement is never re-stamped. */
  lemma UpdatesKeepIdsAndUnlocks(achievements: seq<Achievement>, collection: seq<CollectionItem>,
                                 catalog: seq<Place>, now: nat)
    ensures KeepsIdsAndUnlocks(achievements, UpdatedAchievements(achievements, collection, catalog, now))
  {
    var first := UnlockFirstScan(achievements, now);
    var cultures := CategoryCount(collection, catalog, Culture);
    var culture := TrackCount(first, "culture-lover", cultures, 5, now);
    var gastros := CategoryCount(collection, catalog, Gastronomy);
    UnlockFirstScanEffect(achievements, now);
    AchievementIndexSameIds(achievements, first, "culture-lover");
    TrackCountEffect(first, "culture-lover", cultures, 5, now);
    KeepsTransitive(achievements, first, culture);
    AchievementIndexSameIds(achievements, culture, "gastronomy-expert");
    TrackCountEffect(culture, "gastronomy-expert", gastros, 10, now);
    KeepsTransitive(achievements, culture, TrackCount(culture, "gastronomy-expert", gastros, 10, now));
  }

  /** The counting rule changes the entry `find` picks and no other. */
  lemma TrackCountEffect(achievements: seq<Achievement>, id: string, count: nat, threshold: nat, now: nat)
    ensures var u := TrackCount(achievements, id, count, threshold, now);
      var k := AchievementIndex(achievements, id);
      |u| == |achievements|
      && (k < |u| ==> u[k].progress == count
                      && u[k].unlockedAt == if count >= threshold && achievements[k].unlockedAt.None?
                                            then Some(now) else achievements[k].unlockedAt)
      && (forall i :: 0 <= i < |u| && i != k ==> u[i] == achievements[i])
      && KeepsIdsAndUnlocks(achievements, u)
  {
  }

  /** The 'first-scan' rule changes the entry `find` picks and no other. */
  lemma UnlockFirstScanEffect(achievements: seq<Achievement>, now: nat)
    ensures var u := UnlockFirstScan(achievements, now);
      var k := AchievementIndex(achievements, "first-scan");
      (k < |u| ==> u[k] == if achievements[k].unlockedAt.None?
                           then achievements[k].(progress := 1, unlockedAt := Some(now))
                           else achievements[k])
      && (forall i :: 0 <= i < |u| && i != k ==> u[i] == achievements[i])
      && KeepsIdsAndUnlocks(achievements, u)
  {
  }

  /** 'first-scan' gets progress 1 and is unlocked now, unless it was already unlocked. */
  lemma FirstScanRule(achievements: seq<Achievement>, collection: seq<CollectionItem>,
                      catalog: seq<Place>, now: nat)
    ensures var u := UpdatedAchievements(achievements, collection, catalog, now);
      var f := AchievementIndex(achievements, "first-scan");
      f < |u| ==> u[f] == if achievements[f].unlockedAt.None?
                          then achievements[f].(progress := 1, unlockedAt := Some(now))
                          else achievements[f]
  {
    var first := UnlockFirstScan(achievements, now);
    var cultures := CategoryCount(collection, catalog, Culture);
    var culture := TrackCount(first, "culture-lover", cultures, 5, now);
    var gastros := CategoryCount(collection, catalog, Gastronomy);
    UnlockFirstScanEffect(achievements, now);
    AchievementIndexSameIds(achievements, first, "culture-lover");
    TrackCountEffect(first, "culture-lover", cultures, 5, now);
    KeepsTransitive(achievements, first, culture);
    AchievementIndexSameIds(achievements, culture, "gastronomy-expert");
    TrackCountEffect(culture, "gastronomy-expert", gastros, 10, now);
  }

  /** 'culture-lover' progress is the number of collected culture places; it is unlocked now
      when that reaches 5 and it was not unlocked before. */
  lemma CultureRule(achievements: seq<Achievement>, collection: seq<CollectionItem>,
                    catalog: seq<Place>, now: nat)
    ensures var u := UpdatedAchievements(achievements, collection, catalog, now);
      var c := AchievementIndex(achievements, "culture-lover");
      var cultures := CategoryCount(collection, catalog, Culture);
      c < |u| ==> u[c].progress == cultures
                  && u[c].unlockedAt == if cultures >= 5 && achievements[c].unlockedAt.None?
                                        then Some(now) else achievements[c].unlockedAt
  {
    var first := UnlockFirstScan(achievements, now);
    var cultures := CategoryCount(collection, catalog, Culture);
    var culture := TrackCount(first, "culture-lover", cultures, 5, now);
    var gastros := CategoryCount(collection, catalog, Gastronomy);
    UnlockFirstScanEffect(achievements, now);
    AchievementIndexSameIds(achievements, first, "culture-lover");
    TrackCountEffect(first, "culture-lover", cultures, 5, now);
    KeepsTransitive(achievements, first, culture);
    AchievementIndexSameIds(achievements, culture, "gastronomy-expert");
    TrackCountEffect(culture, "gastronomy-expert", gastros, 10, now);
  }

  /** 'gastronomy-expert' progress is the number of collected gastronomy places; it is
      unlocked now when that reaches 10 and it was not unlocked before. */
  lemma GastronomyRule(achievements: seq<Achievement>, collection: seq<CollectionItem>,
                       catalog: seq<Place>, now: nat)
    ensures var u := UpdatedAchievements(achievements, collection, catalog, now);
      var g := AchievementIndex(achievements, "gastronomy-expert");
      var gastros := CategoryCount(collection, catalog, Gastronomy);
      g < |u| ==> u[g].progress == gastros
                  && u[g].unlockedAt == if gastros >= 10 && achievements[g].unlockedAt.None?
                                        then Some(now) else achievements[g].unlockedAt
  {
    var first := UnlockFirstScan(achievements, now);
    var cultures := CategoryCount(collection, catalog, Culture);
    var culture := TrackCount(first, "culture-lover", cultures, 5, now);
    var gastros := CategoryCount(collection, catalog, Gastronomy);
    UnlockFirstScanEffect(achievements, now);
    AchievementIndexSameIds(achievements, first, "culture-lover");
    TrackCountEffect(first, "culture-lover", cultures, 5, now);
    KeepsTransitive(achievements, first, culture);
    AchievementIndexSameIds(achievements, culture, "gastronomy-expert");
    TrackCountEffect(culture, "gastronomy-expert", gastros, 10, now);
  }

  lemma UnlockFirstScanOther(achievements: seq<Achievement>, now: nat, i: nat)
    requires i < |achievements| && i != AchievementIndex(achievements, "first-scan")
    ensures |UnlockFirstScan(achievements, now)| == |achievements|
    ensures UnlockFirstScan(achievements, now)[i] == achievements[i]
  {
  }

  lemma UnlockFirstScanSameIndex(achievements: seq<Achievement>, now: nat, id: string)
    ensures AchievementIndex(UnlockFirstScan(achievements, now), id) == AchievementIndex(achievements, id)
  {
    UnlockFirstScanEffect(achievements, now);
    AchievementIndexSameIds(achievements, UnlockFirstScan(achievements, now), id);
  }

  lemma TrackCountOther(achievements: seq<Achievement>, id: string, count: nat, threshold: nat, now: nat, i: nat)
    requires i < |achievements| && i != AchievementIndex(achievements, id)
    ensures |TrackCount(achievements, id, count, threshold, now)| == |achievements|
    ensures TrackCount(achievements, id, count, threshold, now)[i] == achievements[i]
  {
  }

  lemma TrackCountSameIndex(achievements: seq<Achievement>, id: string, count: nat, threshold: nat, now: nat,
                            other: string)
    ensures AchievementIndex(TrackCount(achievements, id, count, threshold, now), other)
            == AchievementIndex(achievements, other)
  {
    TrackCountEffect(achievements, id, count, threshold, now);
    AchievementIndexSameIds(achievements, TrackCount(achievements, id, count, threshold, now), other);
  }

  /** Every entry other than the three that `find` picks is left as it was. */
  lemma UntrackedUnchanged(achievements: seq<Achievement>, collection: seq<CollectionItem>,
                           catalog: seq<Place>, now: nat, i: nat)
    requires i < |achievements|
    requires i != AchievementIndex(achievements, "first-scan")
    requires i != AchievementIndex(achievements, "culture-lover")
    requires i != AchievementIndex(achievements, "gastronomy-expert")
    ensures UpdatedAchievements(achievements, collection, catalog, now)[i] == achievements[i]
  {
    var first := UnlockFirstScan(achievements, now);
    UnlockFirstScanOther(achievements, now, i);
    UnlockFirstScanSameIndex(achievements, now, "culture-lover");
    UnlockFirstScanSameIndex(achievements, now, "gastronomy-expert");
    var cultures := CategoryCount(collection, catalog, Culture);
    var culture := TrackCount(first, "culture-lover", cultures, 5, now);
    TrackCountOther(first, "culture-lover", cultures, 5, now, i);
    TrackCountSameIndex(first, "culture-lover", cultures, 5, now, "gastronomy-expert");
    TrackCountOther(culture, "gastronomy-expert", CategoryCount(collection, catalog, Gastronomy), 10, now, i);
  }

  /** One scan moves each tracked count by at most one: by one exactly when the catalog
      place of the scanned id has that category. */
  lemma ScanCountStep(collection: seq<CollectionItem>, place: Place, catalog: seq<Place>,
                      category: PlaceCategory, now: nat)
    ensures CategoryCount(collection + [NewItem(place, now)], catalog, category)
            == CategoryCount(collection, catalog, category)
               + (if FindPlace(catalog, place.id).Some? && FindPlace(catalog, place.id).value.category == category
                  then 1 else 0)
  {
    CategoryCountAppend(collection, NewItem(place, now), catalog, category);
  }

  /** The coupons already held stay in order; a first-scan coupon follows when the counter
      becomes 1 and a five-scan coupon from one of the three restaurants when it becomes a
      multiple of 5. */
  lemma ScanCoupons(collection: seq<CollectionItem>, stats: UserStats, place: Place, catalog: seq<Place>,
                    restaurantRandom: real, now: nat)
    requires 0.0 <= restaurantRandom < 1.0
    requires !InCollection(collection, place.id)
    ensures var r := ScanStep(collection, stats, place, catalog, restaurantRandom, now);
      var total := stats.totalScanned + 1;
      var added := r.stats.coupons[|stats.coupons|..];
      |r.stats.coupons| >= |stats.coupons|
      && r.stats.coupons[..|stats.coupons|] == stats.coupons
      && (total == 1 ==> added == [FirstScanCoupon(now)])
      && (total % 5 == 0 ==> |added| == 1 && added[0].discount == 15 && added[0].businessName in Restaurants
                             && added[0].qrCode == "SCAN5_" + Text.IntToString(total))
      && (total != 1 && total % 5 != 0 ==> added == [])
  {
    var r := ScanStep(collection, stats, place, catalog, restaurantRandom, now);
    var earned := EarnedCoupons(stats.totalScanned + 1, restaurantRandom, now);
    assert r.stats.coupons == stats.coupons + earned;
    assert r.stats.coupons[..|stats.coupons|] == stats.coupons;
    assert r.stats.coupons[|stats.coupons|..] == earned;
  }

  /** `getAchievementProgress`: `Math.round(progress / maxProgress * 100)`. */
  function AchievementProgress(a: Achievement): (percent: int)
    requires a.maxProgress > 0
    ensures 0 <= a.progress <= a.maxProgress ==> 0 <= percent <= 100
    ensures a.progress == a.maxProgress ==> percent == 100
    ensures a.progress == 0 ==> percent == 0
    ensures var x := a.progress as real / a.maxProgress as real * 100.0;
      x - 0.5 < percent as real <= x + 0.5
  {
    var x := a.progress as real / a.maxProgress as real * 100.0;
    assert 0 <= a.progress <= a.maxProgress ==> 0.0 <= x <= 100.0 by {
      if 0 <= a.progress <= a.maxProgress {
        assert a.progress as real / a.maxProgress as real <= 1.0;
      }
    }
    assert a.progress == a.maxProgress ==> x == 100.0;
    Numbers.Round(x)
  }

  /** The achievement checks of `simulateScan`, updating the copied list entry by entry. */
  method CheckAchievements(achievements: seq<Achievement>, collection: seq<CollectionItem>,
                           catalog: seq<Place>, now: nat) returns (updated: seq<Achievement>)
    ensures updated == UpdatedAchievements(achievements, collection, catalog, now)
  {
    updated := achievements;
    var k := AchievementIndex(updated, "first-scan");
    if k < |updated| && updated[k].unlockedAt.None? {
      updated := updated[k := updated[k].(progress := 1, unlockedAt := Some(now))];
    }
    assert updated == UnlockFirstScan(achievements, now);

    var cultureCount := CategoryCount(collection, catalog, Culture);
    k := AchievementIndex(updated, "culture-lover");
    if k < |updated| {
      var a := updated[k].(progress := cultureCount);
      if cultureCount >= 5 && a.unlockedAt.None? {
        a := a.(unlockedAt := Some(now));
      }
      updated := updated[k := a];
    }
    assert updated == TrackCount(UnlockFirstScan(achievements, now), "culture-lover", cultureCount, 5, now);

    var gastroCount := CategoryCount(collection, catalog, Gastronomy);
    k := AchievementIndex(updated, "gastronomy-expert");
    if k < |updated| {
      var a := updated[k].(progress := gastroCount);
      if gastroCount >= 10 && a.unlockedAt.None? {
        a := a.(unlockedAt := Some(now));
      }
      updated := updated[k := a];
    }
  }

  /** The collection and statistics the scanner updates. */
  class ScanSession {
    var collection: seq<CollectionItem>
    var stats: UserStats

    constructor (collection: seq<CollectionItem>, stats: UserStats)
      ensures this.collection == collection && this.stats == stats
    {
      this.collection := collection;
      this.stats := stats;
    }

    /** `simulateScan()` with `place` the randomly chosen catalog place. Returns whether
        the place was added. */
    method SimulateScan(place: Place, catalog: seq<Place>, restaurantRandom: real, now: nat)
      returns (added: bool)
      requires 0.0 <= restaurantRandom < 1.0
      modifies this
      ensures var r := ScanStep(old(collection), old(stats), place, catalog, restaurantRandom, now);
        (added <==> r.Scanned?)
        && (added ==> collection == r.collection && stats == r.stats)
        && (!added ==> collection == old(collection) && stats == old(stats))
    {
      if InCollection(collection, place.id) {
        return false;
      }
      var newItem := NewItem(place, now);
      var newCollection := collection + [newItem];
      collection := newCollection;

      var newStats := stats;
      newStats := newStats.(totalScanned := newStats.totalScanned + 1);

      var updated := CheckAchievements(newStats.achievements, newCollection, catalog, now);
      newStats := newStats.(achievements := updated);

      var newCoupons := newStats.coupons;
      if newStats.totalScanned == 1 {
        newCoupons := newCoupons + [FirstScanCoupon(now)];
      }
      if newStats.totalScanned % 5 == 0 {
        var restaurant := Restaurants[Numbers.RandomIndex(restaurantRandom, |Restaurants|)];
        newCoupons := newCoupons + [FiveScansCoupon(restaurant, newStats.totalScanned, now)];
      }
      assert newCoupons == stats.coupons + EarnedCoupons(newStats.totalScanned, restaurantRandom, now);
      newStats := newStats.(coupons := newCoupons);
      stats := newStats;
      return true;
    }
  }
}
