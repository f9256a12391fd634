/**
 * The tag handlers of src/components/RouteConstructor.tsx: dropping a tag onto the
 * constructor, clicking a tag, removing a tag (`TagLists.WithoutId`) and grouping
 * the tag catalog by category. Each handler computes the next selected list that
 * the component hands to `onTagsChange`.
 */
module RouteConstructor {
  import opened Wrappers
  import opened Types
  import opened TagLists

  /**
   * The drop handler. `useDrop` is given a spec factory and no dependency list, so the
   * handler is built once and keeps the `selectedTags` of the first render, `mounted`.
   * When a tag of `mounted` has the dropped id nothing is called and the selection stays
   * `current`; otherwise `onTagsChange` receives `mounted` with the tag appended.
   */
  function DropTag(mounted: seq<Tag>, current: seq<Tag>, item: Tag): (r: seq<Tag>)
    ensures HasTagId(mounted, item.id) ==> r == current
    ensures !HasTagId(mounted, item.id) ==> r == mounted + [item]
  {
    if FindById(mounted, item.id).None? then mounted + [item] else current
  }

  /** While the selection is still the one of the first render, a drop appends the tag
      unless its id is already selected. */
  lemma DropOnFirstSelection(selected: seq<Tag>, item: Tag)
    ensures DropTag(selected, selected, item) == if HasTagId(selected, item.id) then selected else selected + [item]
  {
  }

  /** Once the selection has changed, a drop of a tag missing from the first selection
      discards every tag chosen since: only the first selection and the dropped tag remain. */
  lemma DropDiscardsLaterTags(mounted: seq<Tag>, current: seq<Tag>, item: Tag)
    requires !HasTagId(mounted, item.id)
    ensures forall t :: t in DropTag(mounted, current, item) <==> t in mounted || t == item
  {
  }

  /** A concrete case: mounted with nothing selected, tag A clicked, then tag B dropped;
      the new selection is [B] and A is lost. */
  lemma DropAfterClickLosesClick(a: Tag, b: Tag)
    requires a.id != b.id
    ensures DropTag([], HandleTagClick([], a), b) == [b]
    ensures a !in DropTag([], HandleTagClick([], a), b)
  {
  }

  /** After a drop of a tag missing from the first selection the list holds its id, and
      a second drop of the same tag changes nothing. */
  lemma DropTagIdempotent(mounted: seq<Tag>, current: seq<Tag>, item: Tag)
    ensures !HasTagId(mounted, item.id) ==> HasTagId(DropTag(mounted, current, item), item.id)
    ensures DropTag(mounted, DropTag(mounted, current, item), item) == DropTag(mounted, current, item)
  {
    if !HasTagId(mounted, item.id) {
      assert (mounted + [item])[|mounted|] == item;
    }
  }

  /** Dropping keeps the selection free of repeated ids when both lists are. */
  lemma DropKeepsDistinct(mounted: seq<Tag>, current: seq<Tag>, item: Tag)
    requires DistinctIds(mounted) && DistinctIds(current)
    ensures DistinctIds(DropTag(mounted, current, item))
  {
    if !HasTagId(mounted, item.id) {
      ToggleKeepsDistinct(mounted, item);
    }
  }

  /** `handleTagClick`: it behaves exactly as App's `handleTagSelect`. */
  function HandleTagClick(selected: seq<Tag>, tag: Tag): (r: seq<Tag>)
    ensures r == ToggleTag(selected, tag)
  {
    if FindById(selected, tag.id).Some? then WithoutId(selected, tag.id) else selected + [tag]
  }

  /** `allTags.filter(t => t.category === category)`. */
  function OfTagCategory(tags: seq<Tag>, category: TagCategory): (r: seq<Tag>)
    ensures |r| <= |tags|
    ensures forall t :: t in r <==> t in tags && t.category == category
  {
    if tags == [] then []
    else (if tags[0].category == category then [tags[0]] else []) + OfTagCategory(tags[1..], category)
  }

  /** The filter distributes over concatenation, so each group keeps catalog order. */
  lemma {:induction false} OfTagCategoryAppend(a: seq<Tag>, b: seq<Tag>, category: TagCategory)
    ensures OfTagCategory(a + b, category) == OfTagCategory(a, category) + OfTagCategory(b, category)
  {
    if a == [] {
      assert a + b == b;
    } else {
      assert (a + b)[0] == a[0];
      assert (a + b)[1..] == a[1..] + b;
      OfTagCategoryAppend(a[1..], b, category);
    }
  }

  /** `tagsByCategory`. */
  datatype TagGroups = TagGroups(personalities: seq<Tag>, themes: seq<Tag>, formats: seq<Tag>)

  function TagsByCategory(allTags: seq<Tag>): TagGroups {
    TagGroups(OfTagCategory(allTags, Personalities), OfTagCategory(allTags, Themes),
              OfTagCategory(allTags, Formats))
  }

  /** The three groups split the catalog: together they hold every tag exactly as often as
      the catalog does, and each holds only tags of its own category. */
  lemma {:induction false} TagsByCategoryPartitions(allTags: seq<Tag>)
    ensures var g := TagsByCategory(allTags);
      multiset(g.personalities) + multiset(g.themes) + multiset(g.formats) == multiset(allTags)
    ensures forall t :: t in TagsByCategory(allTags).personalities ==> t.category == Personalities
    ensures forall t :: t in TagsByCategory(allTags).themes ==> t.category == Themes
    ensures forall t :: t in TagsByCategory(allTags).formats ==> t.category == Formats
  {
    if allTags != [] {
      var rest := allTags[1..];
      TagsByCategoryPartitions(rest);
      assert allTags == [allTags[0]] + rest;
      assert multiset(allTags) == multiset{allTags[0]} + multiset(rest);
    }
  }
}
