# Review browser: filtering, tag selection and the review form

A model in Dafny of the client-side logic of a review-sharing web application
(React + TypeScript). The modelled parts are:

- the main page's filter effect. It narrows the loaded reviews first by the selected
  tags (a review needs any one of them), then by the search text (a case-insensitive
  substring of the text, location, name or a tag).
- the page's list of available tags, the select/deselect toggle, "Clear All" and the
  "Showing N reviews" banner.
- the review form as a state machine: tag entry and removal, star clicks and
  hovering, the submit guard, the normalised payload and the reset after a create.
- the review card: star row, tag colours, and the owner-only Edit/Delete actions.
- the dropdown tag filter. It sorts its tag array in place, marks the selected menu
  items, shows a count badge and removable active badges.
- the inline tag filter. It shows active badges and the sorted list of unselected tags.

Modules:

| module | file | models |
|---|---|---|
| `Seqs` | `seqs.dfy` | `Array.prototype.filter` as a stable filter; subsequences; duplicate-freedom; "remove every copy"; the first-occurrence order of `Array.from(new Set(..))` |
| `Text` | `text.dfy` | `trim`, `toLowerCase`, `includes` on strings; the char-code-sum colour hash |
| `StringOrder` | `order.dfy` | the default `sort()` order on strings and the sorted permutation it yields |
| `Reviews` | `reviews.dfy` | the `Review` and `CreateReviewData` records and the signed-in user |
| `Index` | `index.dfy` | the main page: filter, tag list, toggle, Clear All, banner, and the page state as a class |
| `StarRating` | `stars.dfy` | the five-star rows |
| `ReviewCard` | `review_card.dfy` | the card |
| `ReviewForm` | `review_form.dfy` | the form, as a class whose handlers update its fields |
| `FilterDropdown` | `filter_dropdown.dfy` | the dropdown filter, including the in-place array sort |
| `TagFilter` | `tag_filter.dfy` | the inline filter |

Where a component's state lives in `useState` hooks and changes through handlers,
the model uses a class (`Index.IndexPage`, `ReviewForm.Form`). Each setter is a
method; an effect that re-runs when its dependencies change is called at the end of
the methods that change them. Components that only render props are functions from
props to a view value; the exception is `FilterDropdown.Render`, because the
dropdown's `tags.sort()` sorts its array argument in place.
Pressing Enter in one of the form's single-line inputs also submits the form unless
the input's handler prevents it, as HTML's implicit submission does when the form's
submit button is enabled; `ReviewForm.Form.ImplicitSubmit` models that, and
`ReviewForm.Form.TagInputKeyDown` combines it with the tag input's own handler.

Behaviour of the code worth knowing when reading the lemmas:

- Tags are OR-ed: a review passes the tag stage when it carries any selected tag. So
  with at least one tag already selected, adding another can only add reviews
  (`Index.MoreTagsNeverShrink`); `Index.SecondTagCanWiden` shows one that appears.
  Only the first selected tag narrows (`Index.FirstTagNarrows`).
- The page's `allTags` is in first-occurrence order (`Index.AllTags`). Only the two
  filter components sort what they display.
- The results banner and the "No reviews found" state test the raw search string. The
  filter tests the trimmed one. So a query of spaces, with no tag selected, shows
  "Showing N reviews for ..." with every review counted (`Index.BlankQueryBannerCountsAll`).

## Model

| member | source | states |
|---|---|---|
| Seqs.Filter | src/pages/Index.tsx:35-37 | the filter keeps exactly the elements satisfying the test, never more than it was given |
| Seqs.RemoveAll | src/pages/Index.tsx:198 | `filter(t => t !== tag)` leaves no copy of the tag, keeps every copy of every other value, keeps order and duplicate-freedom |
| Seqs.FilterMultiset | src/components/TagFilter.tsx:84 | a filter keeps every copy of an accepted value and no copy of a rejected one |
| Seqs.Distinct | src/pages/Index.tsx:83 | `Array.from(new Set(xs))` has no duplicates and exactly the values of `xs` |
| Seqs.DistinctFirstOccurrenceOrder | src/pages/Index.tsx:83 | the distinct values come in the order of their first occurrence in `xs` |
| Text.Trim | src/pages/Index.tsx:41 | the trimmed string is empty exactly when the input is all whitespace, and otherwise starts and ends with a non-space |
| Text.TrimBounds | src/pages/Index.tsx:42 | `trim` cuts only whitespace from either end, and a non-empty remainder starts and ends with a non-space |
| Text.TrimIdempotent | src/components/ReviewForm.tsx:69 | trimming twice is trimming once, so text that was trimmed when submitted stays as it is when submitted again |
| Text.ToLower | src/pages/Index.tsx:42 | lower-casing keeps the length and maps each character, leaving no upper-case ASCII letter |
| Text.LowerKeepsBlank | src/pages/Index.tsx:41-42 | lower-casing neither creates nor removes blankness, so the search stage's guard and its query agree |
| Text.LowerIdempotent | src/pages/Index.tsx:47 | lower-casing twice is lower-casing once, so the search stage's `tag.toLowerCase()` leaves an entered tag as stored |
| Text.Contains | src/pages/Index.tsx:44-47 | `includes`: the needle occurs as a contiguous run starting at some position of the haystack |
| Text.ContainsTrans | src/pages/Index.tsx:44-47 | a substring of a substring is a substring |
| Text.CharCodeSum | src/components/FilterDropdown.tsx:45 | the `reduce` adds each character's code to an accumulator starting at 0, left to right |
| Text.CharCodeSumPermutation | src/components/FilterDropdown.tsx:45 | the char-code sum does not depend on the order of the characters |
| Text.PaletteIndex | src/components/FilterDropdown.tsx:45 | the colour index is within the palette |
| Text.PaletteIndexAnagram | src/components/ReviewCard.tsx:46 | tags with the same characters get the same colour |
| StringOrder.Le | src/components/FilterDropdown.tsx:75 | the comparison `sort()` uses: the first differing character decides, and a proper prefix sorts first |
| StringOrder.LeTotal | src/components/FilterDropdown.tsx:75 | any two strings are ordered one way or the other |
| StringOrder.LeAntisymmetric | src/components/FilterDropdown.tsx:75 | strings ordered both ways are equal |
| StringOrder.LeTransitive | src/components/FilterDropdown.tsx:75 | the order is transitive |
| StringOrder.SortStrings | src/components/TagFilter.tsx:85 | `sort()` yields an ascending permutation of its input |
| StringOrder.SortedUnique | src/components/TagFilter.tsx:85 | two ascending sequences with the same elements are equal |
| StringOrder.SortIsCanonical | src/components/FilterDropdown.tsx:75 | any ascending permutation of the input is the result of `sort()` |
| Index.HasSelectedTag | src/pages/Index.tsx:36 | a review passes the tag stage iff it carries some selected tag, compared exactly |
| Index.NormalizeQuery | src/pages/Index.tsx:42 | the query that is matched is the raw one lower-cased, then trimmed |
| Index.FieldMatches | src/pages/Index.tsx:45-46 | an optional location or name matches iff it is present and, lower-cased, contains the query; `?.` makes a missing one fail |
| Index.MatchesQuery | src/pages/Index.tsx:43-48 | a review passes the text stage iff the lower-cased text, location, name or some tag contains the query |
| Index.Visible | src/pages/Index.tsx:33-48 | a review is shown iff each stage that is switched on accepts it: the tag stage only with a selection, the text stage only with a non-blank query |
| Index.FilterReviews | src/pages/Index.tsx:29-52 | the visible reviews are an ordered subsequence of the loaded ones and are exactly those passing both active stages |
| Index.ApplyFilters | src/pages/Index.tsx:31-49 | narrowing by the tag stage and then by the text stage, each only when active, yields the one-pass filter |
| Index.NoFilterIsIdentity | src/pages/Index.tsx:34-41 | with no tag selected and a blank query every review is shown, in order |
| Index.FilterReviewsIdempotent | src/pages/Index.tsx:29-52 | filtering the visible reviews again changes nothing |
| Index.MoreTagsNeverShrink | src/pages/Index.tsx:34-37 | with a non-empty selection, a larger selection keeps every visible review, in order |
| Index.FirstTagNarrows | src/pages/Index.tsx:34-37 | selecting the first tag only removes reviews |
| Index.SecondTagCanWiden | src/pages/Index.tsx:36 | a review tagged only "b" is hidden under ["a"] and shown under ["a", "b"] |
| Index.LongerQueryNarrows | src/pages/Index.tsx:41-48 | for any two queries, blank ones included, a query whose normalised form contains the old one only removes reviews |
| Index.AllTagOccurrences | src/pages/Index.tsx:83 | `flatMap` yields exactly the tags that some review carries |
| Index.AllTags | src/pages/Index.tsx:83 | `allTags` is duplicate-free, holds exactly the used tags, in first-occurrence order |
| Index.Toggle | src/pages/Index.tsx:195-201 | a selected tag is removed (all copies) while every copy of the other tags stays, in order; an unselected one is appended; duplicate-freedom is kept |
| Index.ToggleTwiceRestores | src/pages/Index.tsx:196-200 | toggling an unselected tag twice restores the selection |
| Index.FoldToggles | src/components/FilterDropdown.tsx:114 | the selection after the page's toggle is applied once per request, in request order |
| Index.FoldTogglesDeselects | src/components/FilterDropdown.tsx:114 | toggling distinct selected tags once each deselects exactly those |
| Index.ClearAllEmpties | src/components/FilterDropdown.tsx:114 | toggling every tag of a duplicate-free selection leaves it empty |
| Index.ResultsBanner | src/pages/Index.tsx:205-213 | the banner appears exactly when the raw query is non-empty or a tag is selected; it counts the visible reviews, plural unless exactly one |
| Index.ShowNoMatches | src/pages/Index.tsx:228 | "No reviews found" shows exactly when the banner would report zero |
| Index.BlankQueryBannerCountsAll | src/pages/Index.tsx:205 | a query of spaces shows the banner and counts every review |
| Index.IndexPage.constructor | src/pages/Index.tsx:23-25 | the page starts with nothing loaded, nothing selected, an empty query |
| Index.IndexPage.RunFilterEffect | src/pages/Index.tsx:29-52 | the effect stores the filtered reviews for the current inputs |
| Index.IndexPage.SetReviews | src/pages/Index.tsx:52 | new reviews re-run the effect, keeping the filter consistent |
| Index.IndexPage.SetSearchQuery | src/pages/Index.tsx:186 | a new query re-runs the effect, keeping the filter consistent |
| Index.IndexPage.OnTagToggle | src/pages/Index.tsx:195-201 | the selection becomes the toggled one, stays duplicate-free, and the effect re-runs |
| Index.IndexPage.ClearAll | src/components/FilterDropdown.tsx:114 | one queued toggle per selected tag empties the selection and shows the query-only result |
| Index.IndexPage.AvailableTags | src/pages/Index.tsx:83 | the offered tags are duplicate-free and exactly those in use |
| StarRating.Stars | src/components/ReviewCard.tsx:54-65 | five stars; star `i` is filled exactly when `i` is below the level |
| StarRating.StarRowCount | src/components/ReviewCard.tsx:55-59 | the number of filled stars is the level clamped to 0..n |
| StarRating.StarsCount | src/components/ReviewCard.tsx:55-59 | a level in 0..5 fills that many stars; outside it the row saturates |
| ReviewCard.CardTagColor | src/components/ReviewCard.tsx:45-48 | the card colour index is one of eight |
| ReviewCard.CardTagColors | src/components/ReviewCard.tsx:130-134 | one badge per stored tag, in order, each with its palette entry |
| ReviewCard.IsOwner | src/components/ReviewCard.tsx:52 | owner exactly when signed in and the review's user id equals the user's id |
| ReviewCard.NoOwnerWithoutIds | src/components/ReviewCard.tsx:52 | signed out, or a review without user id: never the owner |
| ReviewCard.CardStars | src/components/ReviewCard.tsx:84 | the card's stars reflect the rating; a rating in 0..5 fills that many |
| ReviewCard.CardActions | src/components/ReviewCard.tsx:98-119 | the Edit/Delete menu exists exactly for the owner; Edit passes the review, Delete its id |
| ReviewForm.FormTagColor | src/components/ReviewForm.tsx:120-123 | the form colour index is one of six |
| ReviewForm.AddTag | src/components/ReviewForm.tsx:43-45 | a new tag is appended, a present one leaves the list unchanged; duplicate-freedom is kept |
| ReviewForm.NormalizeTag | src/components/ReviewForm.tsx:42 | the entered tag is the input trimmed, then lower-cased |
| ReviewForm.SearchSeesStoredTag | src/components/ReviewForm.tsx:42 | an entered tag is unchanged by the search stage's lower-casing, so searching compares it as stored |
| ReviewForm.NormalizedTagShape | src/components/ReviewForm.tsx:42 | an entered tag is non-empty, has no upper-case ASCII letter and does not start with a space |
| ReviewForm.OptionalField | src/components/ReviewForm.tsx:73-74 | a blank field is dropped, otherwise it is sent trimmed and non-empty |
| ReviewForm.SubmitPayload | src/components/ReviewForm.tsx:67-75 | `onSubmit` is called only for non-blank text and a positive rating, with the trimmed text, the rating, tags and image, and the optional fields |
| ReviewForm.SubmitPayloadMeaning | src/components/ReviewForm.tsx:67-75 | a payload is produced exactly for non-blank text and a positive rating; it carries the trimmed text, the rating, tags and image unchanged, and the optional fields trimmed or dropped |
| ReviewForm.ResubmitUnchanged | src/components/ReviewForm.tsx:28-37 | a submitted payload loaded into the edit form and submitted unchanged sends the same payload |
| ReviewForm.SubmitEnabled | src/components/ReviewForm.tsx:280 | the button is enabled exactly for non-blank text and a non-zero rating |
| ReviewForm.SubmitButtonMatchesGuard | src/components/ReviewForm.tsx:280 | for ratings of 0 or more, the button and the submit guard agree |
| ReviewForm.ShownLevel | src/components/ReviewForm.tsx:102 | the hovered level wins over the rating when non-zero |
| ReviewForm.HoverLightsUpToPointer | src/components/ReviewForm.tsx:96-102 | hovering star `k` lights stars 0..k, i.e. `k + 1` stars, whatever the rating |
| ReviewForm.Form.constructor | src/components/ReviewForm.tsx:18-37 | empty initial fields, overwritten by the initial data (missing location or name as empty) |
| ReviewForm.Form.SetText | src/components/ReviewForm.tsx:158 | the text becomes the input value |
| ReviewForm.Form.SetLocation | src/components/ReviewForm.tsx:175 | the location becomes the input value |
| ReviewForm.Form.SetName | src/components/ReviewForm.tsx:192 | the name becomes the input value |
| ReviewForm.Form.SetTagInput | src/components/ReviewForm.tsx:250 | the tag input becomes the input value |
| ReviewForm.Form.RemoveImage | src/components/ReviewForm.tsx:232 | the image is cleared |
| ReviewForm.Form.HandleTagAdd | src/components/ReviewForm.tsx:39-48 | only Enter with a non-blank input acts; it adds the normalised tag, clears the input, keeps duplicate-freedom |
| ReviewForm.Form.HandleTagRemove | src/components/ReviewForm.tsx:50-52 | every copy of the tag goes, every copy of the other tags stays, in order |
| ReviewForm.Form.HandleSubmit | src/components/ReviewForm.tsx:65-88 | returns the payload passed to `onSubmit`; a successful create resets the form, otherwise nothing changes |
| ReviewForm.Form.ImplicitSubmit | src/components/ReviewForm.tsx:278-284 | Enter in a single-line input submits through the submit button: nothing while it is disabled, otherwise `handleSubmit`'s payload and reset |
| ReviewForm.Form.TagInputKeyDown | src/components/ReviewForm.tsx:246-252 | Enter with a non-blank tag input adds the tag and submits nothing; any other Enter submits the form when the button is enabled; other keys change nothing |
| ReviewForm.Form.Reset | src/components/ReviewForm.tsx:78-86 | every field except the hover state is back at its initial empty value |
| ReviewForm.Form.ClickStar | src/components/ReviewForm.tsx:95 | clicking star `i` gives rating `i + 1`, always in 1..5 |
| ReviewForm.Form.HoverStar | src/components/ReviewForm.tsx:96 | hovering star `i` sets the hover level to `i + 1` |
| ReviewForm.Form.LeaveStar | src/components/ReviewForm.tsx:97 | leaving a star clears the hover level |
| ReviewForm.Form.LitStars | src/components/ReviewForm.tsx:100-105 | five stars, lit below the hovered level or else below the rating |
| FilterDropdown.GetTagColor | src/components/FilterDropdown.tsx:43-47 | the palette follows the selection flag and the index is one of eight |
| FilterDropdown.ColourIndexIgnoresSelection | src/components/FilterDropdown.tsx:44-45 | selected and plain palettes use the same index, and anagrams share it |
| FilterDropdown.SortTags | src/components/FilterDropdown.tsx:75 | the in-place sort leaves the array ascending and a permutation of its old contents, i.e. equal to `sort()` of them |
| FilterDropdown.MenuItems | src/components/FilterDropdown.tsx:75-91 | one item per tag in order, marked "Selected" exactly when the tag is selected |
| FilterDropdown.FilterBadge | src/components/FilterDropdown.tsx:62-66 | the count badge appears exactly when something is selected and shows the selection's length |
| FilterDropdown.Badges | src/components/FilterDropdown.tsx:100-109 | one badge per active tag, in selection order, from the selected palette |
| FilterDropdown.Render | src/components/FilterDropdown.tsx:49-123 | nothing and no sort for an empty tag list; otherwise sorted menu with markers, badge, active badges, and Clear All exactly when something is selected |
| FilterDropdown.MenuIsSortedPermutation | src/components/FilterDropdown.tsx:75-76 | the menu is ascending and lists exactly the given tags |
| FilterDropdown.ClearAllRequests | src/components/FilterDropdown.tsx:114 | one toggle request per selected tag, in order; on a duplicate-free selection they empty it |
| TagFilter.Unselected | src/components/TagFilter.tsx:83-86 | ascending; exactly the tags not selected; each kept as often as it occurs |
| TagFilter.NothingSelectedListsAll | src/components/TagFilter.tsx:83-85 | with nothing selected the list is all tags, sorted |
| TagFilter.ToggleMovesTag | src/components/TagFilter.tsx:84 | toggling a tag moves it into or out of the unselected list |
| TagFilter.Render | src/components/TagFilter.tsx:40-98 | nothing for an empty tag list; otherwise Clear All exactly when something is selected, active badges in selection order, unselected tags sorted |
| TagFilter.BadgesWellFormed | src/components/TagFilter.tsx:34-38 | every badge colour is one of eight, and no tag is both active and offered |
| TagFilter.EveryTagShown | src/components/TagFilter.tsx:64-94 | each tag appears as an active badge exactly when selected and in the list exactly when not |
| TagFilter.ClearAllButtonClears | src/components/TagFilter.tsx:51-61 | the button shows exactly when something is selected, and its toggles empty a duplicate-free selection |

## Left out

- Loading, creating, updating and deleting reviews through the backend hook, and its toasts: the page receives the loaded list as an argument (`Index.IndexPage.SetReviews`). The hook in src/hooks/useReviews.ts is not part of this model.
- Authentication: the signed-in user is a parameter of the card functions.
- The search bar component: it forwards its input to the page, modelled as `Index.IndexPage.SetSearchQuery`.
- Image upload through `FileReader`: it sets the image asynchronously from a file; the model only has `ReviewForm.Form.RemoveImage` and the image passed in with the initial data.
- `formatDistanceToNow` on the card, `window.confirm` before a delete, dialogs, the loading screen and all CSS: presentation or I/O.
- React scheduling: every state update is applied at once and the effect re-runs right after. Clear All's queued functional updates are applied in order, which is what React does.
- The `initialData` effect of the form runs again when `initialData` changes; the model applies it once, in `ReviewForm.Form.constructor`.
- Text.Trim, Text.ToLower: only ASCII whitespace (space, tab, line feed, carriage return, vertical tab, form feed) is trimmed and only `A`–`Z` is lower-cased; JavaScript also trims and lower-cases other Unicode characters.
- StringOrder.SortStrings: strings are ordered by their `char` values; JavaScript compares UTF-16 code units, which orders characters outside the basic plane differently.
- Text.CharCodeSum: sums `char` values; JavaScript sums UTF-16 code units, so a character outside the basic plane counts as its two surrogates.
- `key={tag}` on the badges and menu items: React needs unique keys, the model has no rendering identity.
- Clear All on a selection with duplicates: such a selection is not emptied by one toggle per entry, but `Index.Toggle` never creates duplicates, which `Index.IndexPage.Valid` records; the Clear All results are stated for duplicate-free selections.
- ReviewForm.SubmitButtonMatchesGuard: stated for ratings of 0 or more. A negative rating enables the button while the submit guard rejects it, but neither a click nor stored data produce one.
- TagFilter.ClearAllButtonClears: no page in the repository mounts `TagFilter`, so which handler receives its `onTagToggle` requests is not known; the lemma's second clause assumes it is the page's toggle, `Index.Toggle`, as for the dropdown.
