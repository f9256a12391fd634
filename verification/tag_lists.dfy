/**
 * Operations on a list of selected tags, keyed by tag id: the `some`, `find`
 * and `filter(t => t.id !== id)` idioms shared by src/App.tsx and
 * src/components/RouteConstructor.tsx, and App's `handleTagSelect`.
 */
module TagLists {
  import opened Wrappers
  import opened Types

  /** `tags.some(t => t.id === id)`. */
  predicate HasTagId(tags: seq<Tag>, id: string) {
    exists i :: 0 <= i < |tags| && tags[i].id == id
  }

  /** No two entries share an id. */
  predicate DistinctIds(tags: seq<Tag>) {
    forall i, j :: 0 <= i < j < |tags| ==> tags[i].id != tags[j].id
  }

  /** `tags.find(t => t.id === id)`: the first entry with that id. */
  function FindById(tags: seq<Tag>, id: string): (r: Option<Tag>)
    ensures r.None? <==> !HasTagId(tags, id)
    ensures r.Some? ==> exists i :: 0 <= i < |tags| && tags[i] == r.value && r.value.id == id
                          && forall j :: 0 <= j < i ==> tags[j].id != id
  {
    if tags == [] then None
    else if tags[0].id == id then Some(tags[0])
    else
      var r := FindById(tags[1..], id);
      if r.Some? then
        ghost var i :| 0 <= i < |tags[1..]| && tags[1..][i] == r.value && r.value.id == id
                        && forall j :: 0 <= j < i ==> tags[1..][j].id != id;
        assert tags[i + 1] == r.value;
        r
      else
        assert forall i :: 0 < i < |tags| ==> tags[i] == tags[1..][i - 1];
        r
  }

  /** `tags.filter(t => t.id !== id)`: every entry with that id dropped, the rest in order. */
  function WithoutId(tags: seq<Tag>, id: string): (r: seq<Tag>)
    ensures |r| <= |tags|
    ensures forall t :: t in r <==> t in tags && t.id != id
    ensures !HasTagId(r, id)
  {
    if tags == [] then []
    else if tags[0].id == id then WithoutId(tags[1..], id)
    else [tags[0]] + WithoutId(tags[1..], id)
  }

  /** Filtering distributes over concatenation, so the kept entries stay in their order. */
  lemma {:induction false} WithoutIdAppend(a: seq<Tag>, b: seq<Tag>, id: string)
    ensures WithoutId(a + b, id) == WithoutId(a, id) + WithoutId(b, id)
  {
    if a == [] {
      assert a + b == b;
    } else {
      assert (a + b)[1..] == a[1..] + b;
      WithoutIdAppend(a[1..], b, id);
    }
  }

  /** Every entry with another id is kept as many times as it occurs, and none with the id. */
  lemma {:induction false} WithoutIdKeepsOthers(tags: seq<Tag>, id: string)
    ensures forall t: Tag :: t.id != id ==> multiset(WithoutId(tags, id))[t] == multiset(tags)[t]
    ensures forall t: Tag :: t.id == id ==> multiset(WithoutId(tags, id))[t] == 0
  {
    if tags != [] {
      WithoutIdKeepsOthers(tags[1..], id);
      assert tags == [tags[0]] + tags[1..];
      assert multiset(tags) == multiset{tags[0]} + multiset(tags[1..]);
    }
  }

  /** Removing an id that no entry has leaves the list as it was. */
  lemma {:induction false} WithoutAbsentId(tags: seq<Tag>, id: string)
    requires !HasTagId(tags, id)
    ensures WithoutId(tags, id) == tags
  {
    if tags != [] {
      assert tags[0].id != id;
      assert !HasTagId(tags[1..], id) by {
        forall i | 0 <= i < |tags[1..]| ensures tags[1..][i].id != id {
          assert tags[1..][i] == tags[i + 1];
        }
      }
      WithoutAbsentId(tags[1..], id);
    }
  }

  /** Dropping entries keeps distinct ids distinct. */
  lemma {:induction false} WithoutIdKeepsDistinct(tags: seq<Tag>, id: string)
    requires DistinctIds(tags)
    ensures DistinctIds(WithoutId(tags, id))
  {
    if tags != [] {
      var rest := tags[1..];
      assert DistinctIds(rest) by {
        forall i, j | 0 <= i < j < |rest| ensures rest[i].id != rest[j].id {
          assert rest[i] == tags[i + 1] && rest[j] == tags[j + 1];
        }
      }
      WithoutIdKeepsDistinct(rest, id);
      if tags[0].id != id {
        assert !HasTagId(rest, tags[0].id) by {
          forall m | 0 <= m < |rest| ensures rest[m].id != tags[0].id {
            assert rest[m] == tags[m + 1];
          }
        }
        NotInWithout(rest, id, tags[0].id);
        ConsDistinct(tags[0], WithoutId(rest, id));
      }
    }
  }

  /** An id that no entry has is still absent after dropping entries. */
  lemma NotInWithout(tags: seq<Tag>, id: string, other: string)
    requires !HasTagId(tags, other)
    ensures !HasTagId(WithoutId(tags, id), other)
  {
    var w := WithoutId(tags, id);
    forall k | 0 <= k < |w| ensures w[k].id != other {
      assert w[k] in tags;
    }
  }

  /** Prepending a tag whose id is new keeps the ids distinct. */
  lemma ConsDistinct(t: Tag, w: seq<Tag>)
    requires DistinctIds(w) && !HasTagId(w, t.id)
    ensures DistinctIds([t] + w)
  {
    var r := [t] + w;
    forall i, j | 0 <= i < j < |r| ensures r[i].id != r[j].id {
      assert r[j] == w[j - 1];
      if i > 0 {
        assert r[i] == w[i - 1];
      }
    }
  }

  /** `handleTagSelect`: remove every entry with the tag's id if one is present, else append the tag. */
  function ToggleTag(prev: seq<Tag>, tag: Tag): seq<Tag> {
    if HasTagId(prev, tag.id) then WithoutId(prev, tag.id) else prev + [tag]
  }

  /** An absent tag is appended at the end; a present id disappears entirely and every
      entry with another id stays. */
  lemma ToggleTagEffect(prev: seq<Tag>, tag: Tag)
    ensures !HasTagId(prev, tag.id) ==> ToggleTag(prev, tag) == prev + [tag]
    ensures HasTagId(prev, tag.id) ==>
      !HasTagId(ToggleTag(prev, tag), tag.id)
      && (forall t :: t in ToggleTag(prev, tag) <==> t in prev && t.id != tag.id)
    ensures HasTagId(ToggleTag(prev, tag), tag.id) <==> !HasTagId(prev, tag.id)
  {
    if !HasTagId(prev, tag.id) {
      assert (prev + [tag])[|prev|] == tag;
    }
  }

  /** Toggling an absent tag twice restores the original list. */
  lemma ToggleTwiceRestores(prev: seq<Tag>, tag: Tag)
    requires !HasTagId(prev, tag.id)
    ensures ToggleTag(ToggleTag(prev, tag), tag) == prev
  {
    var once := prev + [tag];
    assert once[|prev|] == tag;
    assert HasTagId(once, tag.id);
    WithoutIdAppend(prev, [tag], tag.id);
    WithoutAbsentId(prev, tag.id);
    assert WithoutId([tag], tag.id) == [];
  }

  /** Toggling keeps a list with distinct ids free of duplicates. */
  lemma ToggleKeepsDistinct(prev: seq<Tag>, tag: Tag)
    requires DistinctIds(prev)
    ensures DistinctIds(ToggleTag(prev, tag))
  {
    if HasTagId(prev, tag.id) {
      WithoutIdKeepsDistinct(prev, tag.id);
    } else {
      var r := prev + [tag];
      forall i, j | 0 <= i < j < |r| ensures r[i].id != r[j].id {
        if j == |prev| {
          assert r[i] == prev[i];
        }
      }
    }
  }
}
