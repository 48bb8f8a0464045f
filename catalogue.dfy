/** The fixed content catalogue of RestReveal: seven rest types in a fixed
    order, five statements per rest type, each rated on a five-point scale.
    Only the shape of the catalogue matters to the quiz logic; the statement
    and recommendation texts are not modelled. */
module Catalogue {

  /** Number of entries of `restTypes`. */
  const CategoryCount: nat := 7

  /** Every rest type has five statements. */
  const QuestionsPerCategory: nat := 5

  /** The radio group offers the ratings 1 ("Not true") to 5 ("Very true"). */
  const MinRating: int := 1
  const MaxRating: int := 5

  /** The results view shows each score out of 25. */
  const MaxScore: int := MaxRating * QuestionsPerCategory

  /** A rest type, identified by its position in `restTypes`: 0 is Mental,
      then Physical, Emotional, Social, Spiritual, Sensory and 6 is
      Intellectual Rest. The source keys
      the answers by the rest type's name; names are unique, so the position
      identifies the same entry. */
  type Category = c: int | 0 <= c < CategoryCount

  predicate ValidRating(v: int) {
    MinRating <= v <= MaxRating
  }
}
