/** The records the components exchange, as declared next to the persistence hook
    (`Review` as read back from the store, `CreateReviewData` as submitted by the form). */
module Reviews {

  datatype Option<+T> = None | Some(value: T)

  /** A stored review. Optional columns are `Option`s; timestamps are opaque strings. */
  datatype Review = Review(
    id: string,
    text: string,
    rating: int,
    tags: seq<string>,
    imageUrl: Option<string>,
    location: Option<string>,
    name: Option<string>,
    userId: Option<string>,
    createdAt: string,
    updatedAt: string)

  /** What the review form hands to `onSubmit` (and what it is initialised from when editing). */
  datatype CreateReviewData = CreateReviewData(
    text: string,
    rating: int,
    tags: seq<string>,
    image: Option<string>,
    location: Option<string>,
    name: Option<string>)

  /** The signed-in identity, as far as the components look at it. */
  datatype User = User(id: string)
}
