/** The inline tag filter (src/components/TagFilter.tsx): a Clear All button and the
    active-filter badges when something is selected, then the tags not yet selected,
    sorted. It computes fresh lists and changes nothing. */
module TagFilter {
  import opened Seqs
  import opened StringOrder
  import opened Reviews
  import opened Index
  import opened FilterDropdown

  /** `tags.filter(tag => !selectedTags.includes(tag)).sort()`. */
  function Unselected(tags: seq<string>, selectedTags: seq<string>): (r: seq<string>)
    ensures Sorted(r)
    ensures forall t :: t in r <==> t in tags && t !in selectedTags
    ensures forall t :: multiset(r)[t] == if t in selectedTags then 0 else multiset(tags)[t]
  {
    var kept := Filter(tags, NotIn(selectedTags));
    assert forall t :: multiset(kept)[t] == if t in selectedTags then 0 else multiset(tags)[t] by {
      forall t ensures multiset(kept)[t] == if t in selectedTags then 0 else multiset(tags)[t] {
        FilterMultiset(tags, NotIn(selectedTags), t);
      }
    }
    SortStrings(kept)
  }

  /** With nothing selected the list is just the tags, sorted. */
  lemma NothingSelectedListsAll(tags: seq<string>)
    ensures Unselected(tags, []) == SortStrings(tags)
  {
    var r := Unselected(tags, []);
    assert multiset(r) == multiset(tags) by {
      forall t ensures multiset(r)[t] == multiset(tags)[t] { }
    }
    SortIsCanonical(tags, r);
  }

  /** Toggling a tag moves it between the active badges and the unselected list. */
  lemma ToggleMovesTag(tags: seq<string>, selectedTags: seq<string>, tag: string)
    requires tag in tags
    ensures tag in Unselected(tags, Toggle(selectedTags, tag)) <==> tag !in Unselected(tags, selectedTags)
  {
  }

  /** What the component draws when it draws anything. */
  datatype TagFilterView = TagFilterView(showClearAll: bool, active: seq<Badge>, unselected: seq<Badge>)

  /** The component: nothing for an empty tag list; otherwise Clear All and the active
      badges (selected palette, selection order) when something is selected, then the
      unselected tags in ascending order (plain palette). */
  function Render(tags: seq<string>, selectedTags: seq<string>): (view: Option<TagFilterView>)
    ensures view.None? <==> |tags| == 0
    ensures view.Some? ==> (view.value.showClearAll <==> |selectedTags| > 0)
    ensures view.Some? ==> |view.value.active| == |selectedTags| && forall i :: 0 <= i < |selectedTags| ==>
      view.value.active[i].tag == selectedTags[i] && view.value.active[i].colour.selected
    ensures view.Some? ==> var u := Unselected(tags, selectedTags);
      |view.value.unselected| == |u| && forall i :: 0 <= i < |u| ==>
        view.value.unselected[i].tag == u[i] && !view.value.unselected[i].colour.selected
  {
    if |tags| == 0 then None
    else Some(TagFilterView(|selectedTags| > 0, Badges(selectedTags, true), Badges(Unselected(tags, selectedTags), false)))
  }

  /** Every badge colour is one of the eight palette entries, and no tag is both active
      and offered for selection. */
  lemma BadgesWellFormed(tags: seq<string>, selectedTags: seq<string>)
    requires |tags| > 0
    ensures var v := Render(tags, selectedTags).value;
      && (forall i :: 0 <= i < |v.active| ==> v.active[i].colour.index < FilterPaletteSize)
      && (forall i :: 0 <= i < |v.unselected| ==> v.unselected[i].colour.index < FilterPaletteSize)
      && (forall t :: !(t in BadgeTags(v.active) && t in BadgeTags(v.unselected)))
  {
    BadgesShowTags(selectedTags, true);
    BadgesShowTags(Unselected(tags, selectedTags), false);
  }

  /** Every tag of `tags` is shown exactly once: as an active badge when selected,
      otherwise in the unselected list. */
  lemma EveryTagShown(tags: seq<string>, selectedTags: seq<string>, t: string)
    requires t in tags
    ensures var v := Render(tags, selectedTags).value;
      && (t in BadgeTags(v.active) <==> t in selectedTags)
      && (t in BadgeTags(v.unselected) <==> t !in selectedTags)
  {
    BadgesShowTags(selectedTags, true);
    BadgesShowTags(Unselected(tags, selectedTags), false);
  }

  /** The Clear All button is shown exactly when it has something to clear, and then,
      when the `onTagToggle` handler is the page's `Toggle` (no page in the repository
      mounts this component, so that is an assumption), one toggle per selected tag
      empties a duplicate-free selection. */
  lemma ClearAllButtonClears(tags: seq<string>, selectedTags: seq<string>)
    requires |tags| > 0 && NoDup(selectedTags)
    ensures Render(tags, selectedTags).value.showClearAll <==> |selectedTags| > 0
    ensures FoldToggles(selectedTags, selectedTags) == []
  {
    ClearAllEmpties(selectedTags);
  }
}
