/** `calculateResults`: total each rest type's ratings, sort the rest types
    by total, highest first, with `Array.prototype.sort`, and keep the first
    two. The sort is stable (required since the 2019 edition of ECMA-262,
    section 22.1.3.27), so rest types with equal totals keep their catalogue
    order. */
module Scoring {
  import opened Catalogue
  import opened Answers

  /** `{ ...restType, score: total }`. */
  datatype ScoredType = ScoredType(category: Category, score: int)

  /** `answers[name] || []`: a rest type without an entry has no answers. */
  function ListOf(answers: map<Category, AnswerList>, c: Category): AnswerList {
    if c in answers then answers[c] else []
  }

  /** A rest type with its total. */
  function Entry(answers: map<Category, AnswerList>, c: Category): ScoredType {
    ScoredType(c, Total(ListOf(answers, c)))
  }

  /** `restTypes.map(...)`: every rest type with its total, in catalogue order. */
  function Scores(answers: map<Category, AnswerList>): (r: seq<ScoredType>)
    ensures |r| == CategoryCount
  {
    seq(CategoryCount, i requires 0 <= i < CategoryCount => Entry(answers, i))
  }

  /** The order the stable sort produces from catalogue order: a higher
      total first, and on equal totals the earlier rest type first. */
  predicate Outranks(a: ScoredType, b: ScoredType) {
    a.score > b.score || (a.score == b.score && a.category < b.category)
  }

  predicate Ranked(s: seq<ScoredType>) {
    forall i, j :: 0 <= i < j < |s| ==> Outranks(s[i], s[j])
  }

  predicate InCatalogueOrder(s: seq<ScoredType>) {
    forall i, j :: 0 <= i < j < |s| ==> s[i].category < s[j].category
  }

  /** Inserts `e`, which came before every element of `t` in the input, into
      the already sorted `t`. The comparator `(a, b) => b.score - a.score`
      puts `e` after an element only when that element's score is strictly
      higher, so ties keep `e` in front. */
  function Insert(e: ScoredType, t: seq<ScoredType>): (r: seq<ScoredType>)
    ensures multiset(r) == multiset(t) + multiset{e}
    decreases |t|
  {
    if t == [] || e.score >= t[0].score then [e] + t
    else
      assert t == [t[0]] + t[1..];
      [t[0]] + Insert(e, t[1..])
  }

  /** The stable sort by descending score, as an insertion sort. */
  function SortByScore(s: seq<ScoredType>): (r: seq<ScoredType>)
    ensures multiset(r) == multiset(s)
    decreases |s|
  {
    if s == [] then []
    else
      assert s == [s[0]] + s[1..];
      Insert(s[0], SortByScore(s[1..]))
  }

  lemma {:induction false} InsertRanked(e: ScoredType, t: seq<ScoredType>)
    requires Ranked(t)
    requires forall x :: x in t ==> e.category < x.category
    ensures Ranked(Insert(e, t))
    decreases |t|
  {
    if t == [] || e.score >= t[0].score {
      var r := Insert(e, t);
      assert r == [e] + t;
      forall i, j | 0 <= i < j < |r| ensures Outranks(r[i], r[j]) {
        if i == 0 {
          assert r[j] == t[j - 1] && r[j] in t;
          if j > 1 {
            assert Outranks(t[0], t[j - 1]);
          }
        } else {
          assert r[i] == t[i - 1] && r[j] == t[j - 1];
        }
      }
    } else {
      InsertRanked(e, t[1..]);
      var rest := Insert(e, t[1..]);
      var r := Insert(e, t);
      assert r == [t[0]] + rest;
      forall i, j | 0 <= i < j < |r| ensures Outranks(r[i], r[j]) {
        if i == 0 {
          var x := r[j];
          assert x == rest[j - 1] && x in rest;
          if x != e {
            assert x in multiset(rest);
            assert x in t[1..];
            var k :| 0 <= k < |t[1..]| && t[1..][k] == x;
            assert t[k + 1] == x;
          }
        } else {
          assert r[i] == rest[i - 1] && r[j] == rest[j - 1];
        }
      }
    }
  }

  /** Stability: sorting the rest types from catalogue order ranks them by
      total, and equal totals by catalogue position. */
  lemma {:induction false} SortIsRanked(s: seq<ScoredType>)
    requires InCatalogueOrder(s)
    ensures Ranked(SortByScore(s))
    decreases |s|
  {
    if s != [] {
      SortIsRanked(s[1..]);
      var t := SortByScore(s[1..]);
      forall x | x in t ensures s[0].category < x.category {
        assert x in multiset(t);
        assert x in multiset(s[1..]);
        var k :| 0 <= k < |s[1..]| && s[1..][k] == x;
        assert s[k + 1] == x;
      }
      InsertRanked(s[0], t);
    }
  }

  /** Every rest type appears in `Scores` with its own total. */
  lemma ScoresHoldEveryEntry(answers: map<Category, AnswerList>)
    ensures InCatalogueOrder(Scores(answers))
    ensures forall x :: x in Scores(answers) ==> x == Entry(answers, x.category)
    ensures forall c: Category :: Entry(answers, c) in Scores(answers)
  {
    var s := Scores(answers);
    forall c: Category ensures Entry(answers, c) in s {
      assert s[c] == Entry(answers, c);
    }
  }

  /** `scores.sort((a, b) => b.score - a.score).slice(0, 2)`. */
  function CalculateResults(answers: map<Category, AnswerList>): (r: seq<ScoredType>)
    ensures |r| == 2
    ensures r[0].score >= r[1].score
  {
    var sorted := SortByScore(Scores(answers));
    assert |sorted| == |multiset(sorted)| == CategoryCount;
    ScoresHoldEveryEntry(answers);
    SortIsRanked(Scores(answers));
    assert Outranks(sorted[0], sorted[1]);
    sorted[..2]
  }

  /** The two results are the two best rest types: each carries its own
      total, the first outranks the second, and the second outranks every
      other rest type. A rest type without answers scores 0. */
  lemma CalculateResultsPicksTopTwo(answers: map<Category, AnswerList>)
    ensures var r := CalculateResults(answers);
      && |r| == 2
      && r[0].category != r[1].category
      && (forall k :: 0 <= k < 2 ==> r[k] == Entry(answers, r[k].category))
      && (forall k :: 0 <= k < 2 && r[k].category !in answers ==> r[k].score == 0)
      && Outranks(r[0], r[1])
      && forall c: Category :: c != r[0].category && c != r[1].category ==> Outranks(r[1], Entry(answers, c))
  {
    var s := Scores(answers);
    var sorted := SortByScore(s);
    var r := CalculateResults(answers);
    assert |sorted| == |multiset(sorted)| == CategoryCount;
    assert r == sorted[..2];
    ScoresHoldEveryEntry(answers);
    SortIsRanked(s);
    forall k | 0 <= k < 2 ensures r[k] == Entry(answers, r[k].category) {
      assert sorted[k] in multiset(sorted);
      assert sorted[k] in s;
    }
    assert Outranks(r[0], r[1]);
    forall c: Category | c != r[0].category && c != r[1].category
      ensures Outranks(r[1], Entry(answers, c))
    {
      assert Entry(answers, c) in multiset(sorted);
      var k :| 0 <= k < |sorted| && sorted[k] == Entry(answers, c);
      assert k >= 2;
    }
  }

  /** When every rest type has the same total, the results are the first two
      rest types of the catalogue, Mental Rest then Physical Rest. */
  lemma AllTiedPicksFirstTwo(answers: map<Category, AnswerList>, t: int)
    requires forall c: Category :: Total(ListOf(answers, c)) == t
    ensures CalculateResults(answers) == [ScoredType(0, t), ScoredType(1, t)]
  {
    CalculateResultsPicksTopTwo(answers);
    var r := CalculateResults(answers);
    assert Entry(answers, 0) == ScoredType(0, t);
    assert Entry(answers, 1) == ScoredType(1, t);
  }
}
