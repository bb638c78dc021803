/**
 * The catalog record shared by every section of the browser.  Five text
 * fields are always present; the code snippets and the two section-specific
 * fields may be absent.
 */
module Catalog {
  import opened Wrappers

  /**
   * One catalog entry.  `id` is the key a detail page matches against its
   * route parameter; `category` is the filter key of the list page.
   * `rating` is an `int` because nothing checks the declared range when the
   * data is loaded (see `RatingInRange`).
   */
  datatype PatternItem = PatternItem(
    id: string,
    name: string,
    category: string,
    shortDescription: string,
    description: string,
    exampleTs: Option<string>,
    exampleHtml: Option<string>,
    letter: Option<string>,
    rating: Option<int>)

  /** The declared type of `rating`: absent, or one of 1, 2, 3, 4, 5. */
  predicate RatingInRange(item: PatternItem) {
    item.rating.Some? ==> 1 <= item.rating.value <= 5
  }

  /** The documented values of `letter`: absent, or one of S, O, L, I, D. */
  predicate LetterIsSolid(item: PatternItem) {
    item.letter.Some? ==> item.letter.value in ["S", "O", "L", "I", "D"]
  }

  /** The record satisfies both documented field ranges. */
  predicate Conforms(item: PatternItem) {
    RatingInRange(item) && LetterIsSolid(item)
  }
}
