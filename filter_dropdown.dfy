/** The dropdown tag filter (src/components/FilterDropdown.tsx): a trigger button
    with a count badge, a menu listing every tag in sorted order with a "Selected"
    marker, removable badges for the active tags, and a Clear All button. */
module FilterDropdown {
  import opened Seqs
  import opened Text
  import opened StringOrder
  import opened Reviews
  import opened Index

  /** Both palettes of the filter components have eight entries. */
  const FilterPaletteSize: nat := 8

  /** A palette entry: which of the two palettes, and the position in it. */
  datatype TagColour = TagColour(selected: bool, index: nat)

  /** `getTagColor(tag, isSelected)`. */
  function GetTagColor(tag: string, isSelected: bool): (c: TagColour)
    ensures c.selected == isSelected
    ensures c.index < FilterPaletteSize
  {
    TagColour(isSelected, PaletteIndex(tag, FilterPaletteSize))
  }

  /** Selecting a tag changes its palette, never its position in the palette, and the
      position depends only on the tag's characters, not their order. */
  lemma ColourIndexIgnoresSelection(tag: string, other: string)
    requires multiset(tag) == multiset(other)
    ensures GetTagColor(tag, true).index == GetTagColor(other, false).index
  {
    PaletteIndexAnagram(tag, other, FilterPaletteSize);
  }

  /** The first `n` entries are in ascending order. */
  ghost predicate SortedBelow(s: seq<string>, n: nat)
  {
    n <= |s| && forall p, q :: 0 <= p < q < n ==> Le(s[p], s[q])
  }

  /** Mid-insertion of entry `hi`, which now sits at `j`: the entries up to `hi` are
      ascending apart from position `j`, and the entry at `j` sorts no later than
      everything after it. */
  ghost predicate SortedAround(s: seq<string>, hi: nat, j: nat)
  {
    && j <= hi < |s|
    && (forall p, q :: 0 <= p < q <= hi && p != j && q != j ==> Le(s[p], s[q]))
    && (forall q :: j < q <= hi ==> Le(s[j], s[q]))
  }

  /** Swapping the moving entry with a larger left neighbour moves the gap left. */
  lemma SwapDown(s: seq<string>, hi: nat, j: nat)
    requires SortedAround(s, hi, j) && 0 < j && !Le(s[j - 1], s[j])
    ensures SortedAround(s[j - 1 := s[j]][j := s[j - 1]], hi, j - 1)
  {
    LeTotal(s[j - 1], s[j]);
  }

  /** Once the left neighbour sorts no later, the prefix up to `hi` is ascending. */
  lemma InsertionDone(s: seq<string>, hi: nat, j: nat)
    requires SortedAround(s, hi, j) && (j == 0 || Le(s[j - 1], s[j]))
    ensures SortedBelow(s, hi + 1)
  {
    forall p, q | 0 <= p < q <= hi ensures Le(s[p], s[q]) {
      if q == j && p < j - 1 {
        LeTransitive(s[p], s[j - 1], s[j]);
      }
    }
  }

  /** `tags.sort()`: sorts the array in place (insertion by adjacent swaps). */
  method SortTags(a: array<string>)
    modifies a
    ensures Sorted(a[..])
    ensures multiset(a[..]) == multiset(old(a[..]))
    ensures a[..] == SortStrings(old(a[..]))
  {
    var i := 0;
    while i < a.Length
      invariant i <= a.Length && SortedBelow(a[..], i)
      invariant multiset(a[..]) == multiset(old(a[..]))
    {
      var j := i;
      while j > 0 && !Le(a[j - 1], a[j])
        invariant j <= i && SortedAround(a[..], i, j)
        invariant multiset(a[..]) == multiset(old(a[..]))
      {
        SwapDown(a[..], i, j);
        a[j - 1], a[j] := a[j], a[j - 1];
        j := j - 1;
      }
      InsertionDone(a[..], i, j);
      i := i + 1;
    }
    SortIsCanonical(old(a[..]), a[..]);
  }

  /** One menu entry: the tag and whether it carries the "Selected" marker. */
  datatype MenuItem = MenuItem(tag: string, selected: bool)

  /** The menu built from the (already sorted) tags. */
  function MenuItems(tags: seq<string>, selectedTags: seq<string>): (items: seq<MenuItem>)
    ensures |items| == |tags|
    ensures forall i :: 0 <= i < |items| ==>
      items[i].tag == tags[i] && (items[i].selected <==> tags[i] in selectedTags)
  {
    seq(|tags|, i requires 0 <= i < |tags| => MenuItem(tags[i], tags[i] in selectedTags))
  }

  /** The count badge on the trigger button: shown only when something is selected. */
  function FilterBadge(selectedTags: seq<string>): (badge: Option<nat>)
    ensures badge.Some? <==> |selectedTags| > 0
    ensures badge.Some? ==> badge.value == |selectedTags|
  {
    if |selectedTags| > 0 then Some(|selectedTags|) else None
  }

  /** A removable badge for an active tag. */
  datatype Badge = Badge(tag: string, colour: TagColour)

  /** The badges for the given tags, in the given order, coloured from one palette. */
  function Badges(tags: seq<string>, isSelected: bool): (badges: seq<Badge>)
    ensures |badges| == |tags|
    ensures forall i :: 0 <= i < |badges| ==>
      badges[i].tag == tags[i] && badges[i].colour == GetTagColor(tags[i], isSelected)
  {
    seq(|tags|, i requires 0 <= i < |tags| => Badge(tags[i], GetTagColor(tags[i], isSelected)))
  }

  /** The tags the badges show, in order. */
  function BadgeTags(badges: seq<Badge>): (tags: seq<string>)
    ensures |tags| == |badges|
    ensures forall i :: 0 <= i < |badges| ==> tags[i] == badges[i].tag
  {
    seq(|badges|, i requires 0 <= i < |badges| => badges[i].tag)
  }

  /** The badges show exactly the tags they were made from, in the same order. */
  lemma BadgesShowTags(tags: seq<string>, isSelected: bool)
    ensures BadgeTags(Badges(tags, isSelected)) == tags
  {
  }

  /** What the dropdown draws when it draws anything. */
  datatype DropdownView = DropdownView(badge: Option<nat>, menu: seq<MenuItem>, active: seq<Badge>, showClearAll: bool)

  /** The component: nothing for an empty tag list; otherwise it sorts `tags` in place
      and lists them, marks the selected ones, and shows the active badges and
      Clear All when something is selected. */
  method Render(tags: array<string>, selectedTags: seq<string>) returns (view: Option<DropdownView>)
    modifies tags
    ensures view.None? <==> tags.Length == 0
    ensures view.None? ==> tags[..] == old(tags[..])
    ensures view.Some? ==> tags[..] == SortStrings(old(tags[..]))
    ensures view.Some? ==> view.value.badge == FilterBadge(selectedTags)
    ensures view.Some? ==> |view.value.menu| == tags.Length && forall i :: 0 <= i < tags.Length ==>
      view.value.menu[i].tag == tags[i] && (view.value.menu[i].selected <==> tags[i] in selectedTags)
    ensures view.Some? ==> view.value.active == Badges(selectedTags, true)
    ensures view.Some? ==> (view.value.showClearAll <==> |selectedTags| > 0)
  {
    if tags.Length == 0 {
      return None;
    }
    SortTags(tags);
    view := Some(DropdownView(FilterBadge(selectedTags), MenuItems(tags[..], selectedTags),
                              Badges(selectedTags, true), |selectedTags| > 0));
  }

  /** The menu lists exactly the given tags, in ascending order. */
  lemma MenuIsSortedPermutation(tags: seq<string>, selectedTags: seq<string>)
    ensures var items := MenuItems(SortStrings(tags), selectedTags);
      (forall i, j :: 0 <= i < j < |items| ==> Le(items[i].tag, items[j].tag))
      && (forall t :: t in tags <==> exists i :: 0 <= i < |items| && items[i].tag == t)
  {
    var sorted := SortStrings(tags);
    var items := MenuItems(sorted, selectedTags);
    forall t ensures t in tags <==> exists i :: 0 <= i < |items| && items[i].tag == t {
      if t in tags {
        assert t in multiset(sorted);
        var i :| 0 <= i < |sorted| && sorted[i] == t;
        assert items[i].tag == t;
      }
      if exists i :: 0 <= i < |items| && items[i].tag == t {
        var i :| 0 <= i < |items| && items[i].tag == t;
        assert sorted[i] in multiset(tags);
      }
    }
  }

  /** `selectedTags.forEach(tag => onTagToggle(tag))`: the toggle requests Clear All
      issues, one per selected tag, in selection order. */
  method ClearAllRequests(selectedTags: seq<string>) returns (requests: seq<string>)
    ensures requests == selectedTags
    ensures NoDup(selectedTags) ==> FoldToggles(selectedTags, requests) == []
  {
    requests := [];
    for i := 0 to |selectedTags|
      invariant requests == selectedTags[..i]
    {
      requests := requests + [selectedTags[i]];
    }
    assert selectedTags[..|selectedTags|] == selectedTags;
    if NoDup(selectedTags) {
      ClearAllEmpties(selectedTags);
    }
  }
}
