/** The main page (src/pages/Index.tsx): the filter effect that derives the visible
    reviews from the loaded reviews, the selected tags and the search query; the
    available-tag list; the select/deselect toggle; and the result banner. */
module Index {
  import opened Seqs
  import opened Text
  import opened Reviews

  // ---------------------------------------------------------------- filter

  /** Tag stage test: the review carries at least one selected tag, compared exactly. */
  predicate HasSelectedTag(r: Review, selected: seq<string>)
  {
    exists t :: t in selected && t in r.tags
  }

  /** The search text actually matched: lower-cased, then trimmed. */
  function NormalizeQuery(query: string): string
  {
    Trim(ToLower(query))
  }

  /** An optional field matches only when present; `?.` makes a missing field falsy. */
  predicate FieldMatches(field: Option<string>, q: string)
  {
    field.Some? && Contains(ToLower(field.value), q)
  }

  /** Text stage test for a normalised query `q`: a substring of the lower-cased
      text, location, name or one of the tags. */
  predicate MatchesQuery(r: Review, q: string)
  {
    || Contains(ToLower(r.text), q)
    || FieldMatches(r.location, q)
    || FieldMatches(r.name, q)
    || exists t :: t in r.tags && Contains(ToLower(t), q)
  }

  /** A review survives both stages; a stage that is switched off lets everything through. */
  predicate Visible(r: Review, selected: seq<string>, query: string)
  {
    && (|selected| > 0 ==> HasSelectedTag(r, selected))
    && (Trim(query) != [] ==> MatchesQuery(r, NormalizeQuery(query)))
  }

  function TagTest(selected: seq<string>): Review -> bool
  {
    r => HasSelectedTag(r, selected)
  }

  function QueryTest(q: string): Review -> bool
  {
    r => MatchesQuery(r, q)
  }

  function VisibleTest(selected: seq<string>, query: string): Review -> bool
  {
    r => Visible(r, selected, query)
  }

  /** The visible reviews: exactly the visible ones, in their original order. */
  function FilterReviews(reviews: seq<Review>, selected: seq<string>, query: string): (r: seq<Review>)
    ensures IsSubsequence(r, reviews)
    ensures forall x :: x in r <==> x in reviews && Visible(x, selected, query)
  {
    FilterIsSubsequence(reviews, VisibleTest(selected, query));
    Filter(reviews, VisibleTest(selected, query))
  }

  /** The effect body: `filtered` starts as all reviews and is narrowed by the
      tag stage, then by the text stage, each only when active. */
  method ApplyFilters(reviews: seq<Review>, selected: seq<string>, query: string)
    returns (filtered: seq<Review>)
    ensures filtered == FilterReviews(reviews, selected, query)
  {
    filtered := reviews;
    if |selected| > 0 {
      filtered := Filter(filtered, TagTest(selected));
    }
    if Trim(query) != [] {
      var q := NormalizeQuery(query);
      filtered := Filter(filtered, QueryTest(q));
    }
    var tags, text := |selected| > 0, Trim(query) != [];
    var vis := VisibleTest(selected, query);
    if tags && text {
      FilterCompose(reviews, TagTest(selected), QueryTest(NormalizeQuery(query)), vis);
    } else if tags {
      FilterExt(reviews, TagTest(selected), vis);
    } else if text {
      FilterExt(reviews, QueryTest(NormalizeQuery(query)), vis);
    } else {
      FilterAllKept(reviews, vis);
    }
  }

  /** No selected tag and a blank query: every review is shown, in order. */
  lemma NoFilterIsIdentity(reviews: seq<Review>, selected: seq<string>, query: string)
    requires |selected| == 0 && IsBlank(query)
    ensures FilterReviews(reviews, selected, query) == reviews
  {
    FilterAllKept(reviews, VisibleTest(selected, query));
  }

  /** Filtering the visible reviews again with the same inputs changes nothing. */
  lemma FilterReviewsIdempotent(reviews: seq<Review>, selected: seq<string>, query: string)
    ensures FilterReviews(FilterReviews(reviews, selected, query), selected, query)
         == FilterReviews(reviews, selected, query)
  {
    FilterIdempotent(reviews, VisibleTest(selected, query));
  }

  /** With at least one tag selected, selecting more tags only adds reviews (tags are
      OR-ed), and what was visible stays visible in the same order. */
  lemma MoreTagsNeverShrink(reviews: seq<Review>, selected: seq<string>, more: seq<string>, query: string)
    requires |selected| > 0
    requires forall t :: t in selected ==> t in more
    ensures IsSubsequence(FilterReviews(reviews, selected, query), FilterReviews(reviews, more, query))
  {
    FilterMonotone(reviews, VisibleTest(selected, query), VisibleTest(more, query));
  }

  /** Selecting the first tag can only remove reviews. */
  lemma FirstTagNarrows(reviews: seq<Review>, tag: string, query: string)
    ensures IsSubsequence(FilterReviews(reviews, [tag], query), FilterReviews(reviews, [], query))
  {
    FilterMonotone(reviews, VisibleTest([tag], query), VisibleTest([], query));
  }

  /** Adding a second tag can make more reviews visible: with no query, a review
      tagged only "b" is hidden under the selection ["a"] and shown under ["a", "b"],
      while one tagged "a" stays visible. */
  lemma SecondTagCanWiden(a: Review, b: Review)
    requires a.tags == ["a"] && b.tags == ["b"]
    ensures a in FilterReviews([a, b], ["a"], "") && b !in FilterReviews([a, b], ["a"], "")
    ensures a in FilterReviews([a, b], ["a", "b"], "") && b in FilterReviews([a, b], ["a", "b"], "")
  {
    assert Trim("") == [];
    assert "a" != "b" by { assert "a"[0] != "b"[0]; }
    assert HasSelectedTag(a, ["a"]) && HasSelectedTag(a, ["a", "b"]) by { assert "a" in a.tags; }
    assert HasSelectedTag(b, ["a", "b"]) by { assert "b" in ["a", "b"] && "b" in b.tags; }
    assert !HasSelectedTag(b, ["a"]);
  }

  /** A non-empty needle only occurs in a non-empty haystack. */
  lemma ContainsNonEmpty(h: string, n: string)
    requires n != [] && Contains(h, n)
    ensures h != []
  {
    var i :| 0 <= i <= |h| && n <= h[i..];
  }

  /** A query whose normalised form contains another's only narrows the result. */
  lemma LongerQueryNarrows(reviews: seq<Review>, selected: seq<string>, query: string, longer: string)
    requires Contains(NormalizeQuery(longer), NormalizeQuery(query))
    ensures IsSubsequence(FilterReviews(reviews, selected, longer), FilterReviews(reviews, selected, query))
  {
    if Trim(query) != [] {
      var q, q' := NormalizeQuery(query), NormalizeQuery(longer);
      LowerKeepsBlank(query);
      LowerKeepsBlank(longer);
      assert q != [];
      ContainsNonEmpty(q', q);
      assert Trim(longer) != [];
      forall r | Visible(r, selected, longer) ensures Visible(r, selected, query) {
        if Contains(ToLower(r.text), q') {
          ContainsTrans(q, q', ToLower(r.text));
        } else if FieldMatches(r.location, q') {
          ContainsTrans(q, q', ToLower(r.location.value));
        } else if FieldMatches(r.name, q') {
          ContainsTrans(q, q', ToLower(r.name.value));
        } else {
          var t :| t in r.tags && Contains(ToLower(t), q');
          ContainsTrans(q, q', ToLower(t));
        }
      }
    }
    FilterMonotone(reviews, VisibleTest(selected, longer), VisibleTest(selected, query));
  }

  // ------------------------------------------------------------ tag lists

  /** `reviews.flatMap(review => review.tags)`. */
  function AllTagOccurrences(reviews: seq<Review>): (r: seq<string>)
    ensures forall t :: t in r <==> exists rv :: rv in reviews && t in rv.tags
  {
    if reviews == [] then []
    else
      assert forall rv :: rv in reviews <==> rv == reviews[0] || rv in reviews[1..];
      reviews[0].tags + AllTagOccurrences(reviews[1..])
  }

  /** `allTags`: every tag used by some review, once each, in first-occurrence order. */
  function AllTags(reviews: seq<Review>): (r: seq<string>)
    ensures NoDup(r)
    ensures forall t :: t in r <==> exists rv :: rv in reviews && t in rv.tags
    ensures forall t :: t in r <==> t in AllTagOccurrences(reviews)
    ensures forall i, j :: 0 <= i < j < |r| ==>
      FirstIndex(AllTagOccurrences(reviews), r[i]) < FirstIndex(AllTagOccurrences(reviews), r[j])
  {
    DistinctFirstOccurrenceOrder(AllTagOccurrences(reviews));
    Distinct(AllTagOccurrences(reviews))
  }

  /** `onTagToggle`: a selected tag is dropped (every copy), an unselected one appended. */
  function Toggle(selected: seq<string>, tag: string): (r: seq<string>)
    ensures tag in selected ==> tag !in r && forall t :: t != tag ==> (t in r <==> t in selected)
    ensures tag in selected ==> IsSubsequence(r, selected)
    ensures tag in selected ==> forall t :: t != tag ==> multiset(r)[t] == multiset(selected)[t]
    ensures tag !in selected ==> r == selected + [tag]
    ensures NoDup(selected) ==> NoDup(r)
  {
    if tag in selected then
      RemoveAll(selected, tag)
    else
      assert NoDup(selected) ==> NoDup(selected + [tag]) by {
        if NoDup(selected) { AppendKeepsNoDup(selected, tag); }
      }
      selected + [tag]
  }

  /** Toggling an unselected tag twice restores the selection exactly. */
  lemma ToggleTwiceRestores(selected: seq<string>, tag: string)
    requires tag !in selected
    ensures Toggle(Toggle(selected, tag), tag) == selected
  {
    RemoveAllAppended(selected, tag);
  }

  /** The selection after applying `onTagToggle` once per entry of `toggles`, in order
      (React applies the queued functional updates one after another). */
  function FoldToggles(selected: seq<string>, toggles: seq<string>): seq<string>
  {
    if toggles == [] then selected
    else Toggle(FoldToggles(selected, toggles[..|toggles| - 1]), toggles[|toggles| - 1])
  }

  /** Toggling distinct, currently selected tags once each deselects exactly them. */
  lemma {:induction false} FoldTogglesDeselects(selected: seq<string>, toggles: seq<string>)
    requires NoDup(toggles)
    requires forall t :: t in toggles ==> t in selected
    ensures forall t :: t in FoldToggles(selected, toggles) <==> t in selected && t !in toggles
  {
    if toggles != [] {
      var init, last := toggles[..|toggles| - 1], toggles[|toggles| - 1];
      assert toggles == init + [last];
      assert NoDup(init) by {
        forall i, j | 0 <= i < j < |init| ensures init[i] != init[j] {
          assert init[i] == toggles[i] && init[j] == toggles[j];
        }
      }
      assert last !in init;
      FoldTogglesDeselects(selected, init);
    }
  }

  /** "Clear All" toggles every selected tag once; on a duplicate-free selection that
      leaves nothing selected. */
  lemma ClearAllEmpties(selected: seq<string>)
    requires NoDup(selected)
    ensures FoldToggles(selected, selected) == []
  {
    FoldTogglesDeselects(selected, selected);
    NoMembersEmpty(FoldToggles(selected, selected));
  }

  // --------------------------------------------------------------- banner

  /** The "Showing N review(s) [for "q"] [with selected tags]" line. */
  datatype Banner = Banner(count: nat, plural: bool, forQuery: bool, withTags: bool)

  /** Shown when the raw (untrimmed) query is non-empty or a tag is selected. */
  function ResultsBanner(query: string, selected: seq<string>, filtered: seq<Review>): (b: Option<Banner>)
    ensures b.Some? <==> |query| > 0 || |selected| > 0
    ensures b.Some? ==> b.value.count == |filtered| && (b.value.plural <==> |filtered| != 1)
    ensures b.Some? ==> (b.value.forQuery <==> |query| > 0) && (b.value.withTags <==> |selected| > 0)
  {
    if |query| > 0 || |selected| > 0 then
      Some(Banner(|filtered|, |filtered| != 1, |query| > 0, |selected| > 0))
    else None
  }

  /** "No reviews found": nothing visible while the raw query is non-empty or a tag is selected. */
  function ShowNoMatches(query: string, selected: seq<string>, filtered: seq<Review>): (show: bool)
    ensures show <==> ResultsBanner(query, selected, filtered) == Some(Banner(0, true, |query| > 0, |selected| > 0))
  {
    |filtered| == 0 && (|query| > 0 || |selected| > 0)
  }

  /** A query of spaces shows the banner although it filters nothing out: the banner
      tests the raw query, the text stage the trimmed one. */
  lemma BlankQueryBannerCountsAll(reviews: seq<Review>, query: string)
    requires |query| > 0 && IsBlank(query)
    ensures ResultsBanner(query, [], FilterReviews(reviews, [], query)).Some?
    ensures ResultsBanner(query, [], FilterReviews(reviews, [], query)).value.count == |reviews|
  {
    NoFilterIsIdentity(reviews, [], query);
  }

  // ----------------------------------------------------------------- page

  /** The page's state: the loaded reviews, the selection, the query and the derived list. */
  class IndexPage {
    var reviews: seq<Review>
    var selectedTags: seq<string>
    var searchQuery: string
    var filteredReviews: seq<Review>

    /** The effect has run for the current inputs and the selection has no duplicates. */
    ghost predicate Valid()
      reads this
    {
      && NoDup(selectedTags)
      && filteredReviews == FilterReviews(reviews, selectedTags, searchQuery)
    }

    /** Initial state: nothing loaded yet, nothing selected, empty query. */
    constructor ()
      ensures Valid()
      ensures reviews == [] && selectedTags == [] && searchQuery == [] && filteredReviews == []
    {
      reviews, selectedTags, searchQuery, filteredReviews := [], [], [], [];
    }

    /** The filter effect, re-run after any of its three dependencies changed. */
    method RunFilterEffect()
      modifies this`filteredReviews
      ensures filteredReviews == FilterReviews(reviews, selectedTags, searchQuery)
    {
      filteredReviews := ApplyFilters(reviews, selectedTags, searchQuery);
    }

    /** The store delivered a (re)loaded review list. */
    method SetReviews(loaded: seq<Review>)
      requires Valid()
      modifies this
      ensures Valid()
      ensures reviews == loaded && selectedTags == old(selectedTags) && searchQuery == old(searchQuery)
    {
      reviews := loaded;
      RunFilterEffect();
    }

    /** The search bar reported a new query. */
    method SetSearchQuery(query: string)
      requires Valid()
      modifies this
      ensures Valid()
      ensures searchQuery == query && reviews == old(reviews) && selectedTags == old(selectedTags)
    {
      searchQuery := query;
      RunFilterEffect();
    }

    /** `onTagToggle(tag)` followed by the effect it triggers. */
    method OnTagToggle(tag: string)
      requires Valid()
      modifies this
      ensures Valid()
      ensures selectedTags == Toggle(old(selectedTags), tag)
      ensures reviews == old(reviews) && searchQuery == old(searchQuery)
    {
      selectedTags := Toggle(selectedTags, tag);
      RunFilterEffect();
    }

    /** "Clear All": `selectedTags.forEach(tag => onTagToggle(tag))` over the selection
        as rendered, then the effect. */
    method ClearAll()
      requires Valid()
      modifies this
      ensures Valid()
      ensures selectedTags == []
      ensures filteredReviews == FilterReviews(reviews, [], searchQuery)
      ensures reviews == old(reviews) && searchQuery == old(searchQuery)
    {
      var snapshot := selectedTags;
      var next := snapshot;
      for i := 0 to |snapshot|
        invariant next == FoldToggles(snapshot, snapshot[..i])
      {
        assert snapshot[..i + 1][..i] == snapshot[..i];
        next := Toggle(next, snapshot[i]);
      }
      assert snapshot[..|snapshot|] == snapshot;
      ClearAllEmpties(snapshot);
      selectedTags := next;
      RunFilterEffect();
    }

    /** The tags offered for filtering. */
    function AvailableTags(): (tags: seq<string>)
      reads this
      ensures NoDup(tags)
      ensures forall t :: t in tags <==> exists rv :: rv in reviews && t in rv.tags
    {
      AllTags(reviews)
    }
  }
}
