/** One review as a card (src/components/ReviewCard.tsx): its star row, tag colours,
    and the Edit/Delete actions offered only to the review's owner. */
module ReviewCard {
  import opened Text
  import opened Reviews
  import opened StarRating

  /** The card's tag palette has eight entries. */
  const CardPaletteSize: nat := 8

  /** `getTagColor`: the palette entry for a tag. */
  function CardTagColor(tag: string): (index: nat)
    ensures index < CardPaletteSize
  {
    PaletteIndex(tag, CardPaletteSize)
  }

  /** The tag badges in stored order, each with its colour. */
  function CardTagColors(review: Review): (colours: seq<nat>)
    ensures |colours| == |review.tags|
    ensures forall i :: 0 <= i < |colours| ==> colours[i] == CardTagColor(review.tags[i]) && colours[i] < CardPaletteSize
  {
    seq(|review.tags|, i requires 0 <= i < |review.tags| => CardTagColor(review.tags[i]))
  }

  /** `isOwner`: someone is signed in and the review carries that user's id. */
  function IsOwner(user: Option<User>, review: Review): (owner: bool)
    ensures owner <==> user.Some? && review.userId.Some? && review.userId.value == user.value.id
  {
    user.Some? && review.userId == Some(user.value.id)
  }

  /** Nobody owns a review stored without a user id, and nothing is owned while signed out. */
  lemma NoOwnerWithoutIds(user: Option<User>, review: Review)
    requires user.None? || review.userId.None?
    ensures !IsOwner(user, review)
  {
  }

  /** `renderStars(review.rating)`. */
  function CardStars(review: Review): (lit: seq<bool>)
    ensures |lit| == StarCount
    ensures forall i :: 0 <= i < StarCount ==> (lit[i] <==> i < review.rating)
    ensures 0 <= review.rating <= StarCount ==> CountLit(lit) == review.rating
  {
    StarsCount(review.rating);
    Stars(review.rating)
  }

  /** What the owner's menu does: Edit hands over the review, Delete its id. */
  datatype OwnerActions = OwnerActions(editArgument: Review, deleteArgument: string)

  /** The owner menu, present exactly for the owner. */
  function CardActions(user: Option<User>, review: Review): (actions: Option<OwnerActions>)
    ensures actions.Some? <==> IsOwner(user, review)
    ensures actions.Some? ==> actions.value.editArgument == review && actions.value.deleteArgument == review.id
  {
    if IsOwner(user, review) then Some(OwnerActions(review, review.id)) else None
  }
}
