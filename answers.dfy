/** One rest type's answers: a JavaScript array of ratings, indexed by
    question. The model keeps the three kinds of element such an array can
    hold, because `every`, `reduce` and the spread operator treat them
    differently:
      - a hole (an index never written, below the array's length),
      - `undefined` (a hole that the spread operator copied),
      - a rating. */
module Answers {
  import opened Catalogue

  datatype Option<T> = None | Some(value: T)

  datatype Slot = Hole | Undefined | Rated(value: int)

  type AnswerList = seq<Slot>

  /** The rating the radio group of question `q` shows:
      `answers[name]?.[q]`, nothing for a hole, `undefined` or an index past
      the end. */
  function Rating(l: AnswerList, q: nat): Option<int> {
    if q < |l| && l[q].Rated? then Some(l[q].value) else None
  }

  /** `[...l]`: the spread operator copies every index below the length and
      reads a hole as `undefined`. */
  function Spread(l: AnswerList): (r: AnswerList)
    ensures |r| == |l|
    ensures forall k :: 0 <= k < |r| ==> r[k] != Hole
    ensures forall q: nat :: Rating(r, q) == Rating(l, q)
  {
    seq(|l|, k requires 0 <= k < |l| => if l[k] == Hole then Undefined else l[k])
  }

  /** `handleAnswer`'s list update: copy the list with the spread operator,
      then assign the rating at index `q`. Assigning past the end extends the
      array to length `q + 1`, leaving holes in between. */
  function Written(l: AnswerList, q: nat, v: int): (r: AnswerList)
    ensures |r| == if q < |l| then |l| else q + 1
    ensures forall k: nat :: Rating(r, k) == if k == q then Some(v) else Rating(l, k)
    ensures forall k :: 0 <= k < |l| ==> r[k] != Hole
    ensures forall k :: |l| <= k < |r| && k != q ==> r[k] == Hole
  {
    var copy := Spread(l);
    if q < |copy| then copy[q := Rated(v)]
    else copy + seq(q - |copy|, _ => Hole) + [Rated(v)]
  }

  /** `canProceed` as written: the length is 5 and `every` element that is
      present satisfies `answer >= 1 && answer <= 5`. `every` skips holes;
      `undefined >= 1` is false. */
  predicate PassesAsWritten(l: AnswerList) {
    && |l| == QuestionsPerCategory
    && forall k :: 0 <= k < |l| && l[k] != Hole ==> l[k].Rated? && ValidRating(l[k].value)
  }

  /** The gate `canProceed` is meant to be: all five questions carry a
      rating in [1, 5]. */
  predicate Complete(l: AnswerList) {
    && |l| == QuestionsPerCategory
    && forall k :: 0 <= k < |l| ==> l[k].Rated? && ValidRating(l[k].value)
  }

  /** The gate holds exactly when every question of the rest type shows a
      rating in range and there are no extra entries. */
  lemma CompleteIffEveryQuestionRated(l: AnswerList)
    ensures Complete(l) <==>
      && |l| == QuestionsPerCategory
      && forall q: nat :: q < QuestionsPerCategory ==> Rating(l, q).Some? && ValidRating(Rating(l, q).value)
  {
    if |l| == QuestionsPerCategory && forall q: nat :: q < QuestionsPerCategory ==> Rating(l, q).Some? && ValidRating(Rating(l, q).value) {
      forall k | 0 <= k < |l| ensures l[k].Rated? && ValidRating(l[k].value) {
        assert Rating(l, k).Some?;
      }
    }
  }

  /** Answering only the last question of a fresh rest type already passes
      the gate as written: `[]` with index 4 assigned has length 5 and four
      holes, which `every` skips. */
  lemma AsWrittenGateAdmitsUnansweredQuestions()
    ensures PassesAsWritten(Written([], 4, 3))
    ensures !Complete(Written([], 4, 3))
    ensures forall q: nat :: q < 4 ==> Rating(Written([], 4, 3), q) == None
  {
    var l := Written([], 4, 3);
    assert l[0] == Hole;
  }

  /** The two gates differ only on holes: on a list without holes, such as
      every list `Written` has copied, they agree. */
  lemma GatesAgreeWithoutHoles(l: AnswerList)
    requires forall k :: 0 <= k < |l| ==> l[k] != Hole
    ensures PassesAsWritten(l) <==> Complete(l)
  {
  }

  /** What one element adds to `reduce((sum, answer) => sum + answer, 0)`:
      `reduce` skips holes. An `undefined` element would make the sum NaN;
      the model counts it as 0, and no rest type of a reachable results view
      holds one, under either gate (see QuizSpec.NoUndefinedAtResults). */
  function Contribution(x: Slot): int {
    match x
    case Rated(v) => v
    case _ => 0
  }

  /** The left fold of `reduce` over the list, starting from 0. */
  function Total(l: AnswerList): int
    decreases |l|
  {
    if l == [] then 0 else Total(l[..|l| - 1]) + Contribution(l[|l| - 1])
  }

  /** A list of in-range ratings sums to between 1 and 5 per rating. */
  lemma {:induction false} TotalBounds(l: AnswerList)
    requires forall k :: 0 <= k < |l| ==> l[k].Rated? && ValidRating(l[k].value)
    ensures MinRating * |l| <= Total(l) <= MaxRating * |l|
    decreases |l|
  {
    if l != [] {
      TotalBounds(l[..|l| - 1]);
    }
  }

  /** Under the gate as written, holes contribute nothing and every other
      entry is a rating in range: the total is at most 5 per entry and at
      least any single rating in the list. */
  lemma {:induction false} TotalBoundsWithHoles(l: AnswerList)
    requires forall k :: 0 <= k < |l| && l[k] != Hole ==> l[k].Rated? && ValidRating(l[k].value)
    ensures 0 <= Total(l) <= MaxRating * |l|
    ensures forall k :: 0 <= k < |l| && l[k].Rated? ==> Total(l) >= l[k].value
    decreases |l|
  {
    if l != [] {
      var init := l[..|l| - 1];
      TotalBoundsWithHoles(init);
      forall k | 0 <= k < |l| && l[k].Rated? ensures Total(l) >= l[k].value {
        if k < |l| - 1 {
          assert init[k] == l[k];
        }
      }
    }
  }

  /** A list that passes the gate as written and holds at least one rating
      scores between 1 and 25. */
  lemma PassingScoreInRange(l: AnswerList, k: nat)
    requires PassesAsWritten(l)
    requires k < |l| && l[k].Rated?
    ensures MinRating <= Total(l) <= MaxScore
  {
    TotalBoundsWithHoles(l);
  }

  /** Neither gate lets an `undefined` element through. */
  lemma GatesExcludeUndefined(l: AnswerList)
    requires PassesAsWritten(l) || Complete(l)
    ensures forall k :: 0 <= k < |l| ==> l[k] != Undefined
  {
  }

  /** A completed rest type scores between 5 and 25, the "/25" the results
      view shows. */
  lemma CompleteScoreInRange(l: AnswerList)
    requires Complete(l)
    ensures MinRating * QuestionsPerCategory <= Total(l) <= MaxScore
  {
    TotalBounds(l);
  }
}
