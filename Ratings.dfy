/**
 * Ratings of concluded requests (`AvaliacaoSolicitacao`): the record, the
 * repository's finders, count and average, and the rating service.
 */
module Ratings {
  import opened Common

  /** One rating: which request, who rates whom, the score, an optional comment and the creation time. */
  datatype Rating = Rating(requestId: int, raterId: int, ratedId: int, score: int, comment: Option<string>, createdAt: int)

  /** Why the service refuses a rating. */
  datatype RatingError = ScoreOutOfRange | AlreadyRated

  // ----- repository -----

  /** `findBySolicitacaoId`: the ratings of one request, in stored order. */
  function ByRequest(rs: seq<Rating>, id: int): (r: seq<Rating>)
    ensures forall x :: x in r <==> x in rs && x.requestId == id
  {
    if rs == [] then [] else (if rs[0].requestId == id then [rs[0]] else []) + ByRequest(rs[1..], id)
  }

  /** `findByAvaliadoId`: the ratings a user received. */
  function ByRated(rs: seq<Rating>, u: int): (r: seq<Rating>)
    ensures forall x :: x in r <==> x in rs && x.ratedId == u
  {
    if rs == [] then [] else (if rs[0].ratedId == u then [rs[0]] else []) + ByRated(rs[1..], u)
  }

  /** `findByAvaliadorId`: the ratings a user gave. */
  function ByRater(rs: seq<Rating>, u: int): (r: seq<Rating>)
    ensures forall x :: x in r <==> x in rs && x.raterId == u
  {
    if rs == [] then [] else (if rs[0].raterId == u then [rs[0]] else []) + ByRater(rs[1..], u)
  }

  /** `findBySolicitacaoIdAndAvaliadorId`: the rating a rater gave on a request, if any. */
  function FindByRequestAndRater(rs: seq<Rating>, id: int, rater: int): (r: Option<Rating>)
    ensures r.Some? ==> r.value in rs && r.value.requestId == id && r.value.raterId == rater
    ensures r.None? <==> forall x :: x in rs ==> !(x.requestId == id && x.raterId == rater)
  {
    if rs == [] then None
    else if rs[0].requestId == id && rs[0].raterId == rater then Some(rs[0])
    else FindByRequestAndRater(rs[1..], id, rater)
  }

  /** At most one rating per (request, rater). */
  ghost predicate OnePerRater(rs: seq<Rating>) {
    forall i, j ::
      (0 <= i < |rs| && 0 <= j < |rs| && rs[i].requestId == rs[j].requestId && rs[i].raterId == rs[j].raterId) ==> i == j
  }

  /** With one rating per rater and request, the pair finder's answer is the only match. */
  lemma FindByRequestAndRaterUnique(rs: seq<Rating>, id: int, rater: int, i: int)
    requires OnePerRater(rs) && 0 <= i < |rs| && rs[i].requestId == id && rs[i].raterId == rater
    ensures FindByRequestAndRater(rs, id, rater) == Some(rs[i])
  {
    var r := FindByRequestAndRater(rs, id, rater);
    var j :| 0 <= j < |rs| && rs[j] == r.value;
  }

  /** `countByAvaliadoId`: a COUNT over the table. */
  function CountByRated(rs: seq<Rating>, u: int): nat
  {
    if rs == [] then 0 else (if rs[0].ratedId == u then 1 else 0) + CountByRated(rs[1..], u)
  }

  /** The count query agrees with the size of the finder's list. */
  lemma {:induction false} CountByRatedIsFinderSize(rs: seq<Rating>, u: int)
    ensures CountByRated(rs, u) == |ByRated(rs, u)|
  {
    if rs != [] {
      CountByRatedIsFinderSize(rs[1..], u);
    }
  }

  function SumByRated(rs: seq<Rating>, u: int): int
  {
    if rs == [] then 0 else (if rs[0].ratedId == u then rs[0].score else 0) + SumByRated(rs[1..], u)
  }

  /** `mediaPorAvaliadoId`: the mean score a user received, absent (SQL `NULL`) when there is none. */
  function AverageByRated(rs: seq<Rating>, u: int): (a: Option<real>)
    ensures a.None? <==> CountByRated(rs, u) == 0
    ensures a.Some? ==> a.value * CountByRated(rs, u) as real == SumByRated(rs, u) as real
  {
    var n := CountByRated(rs, u);
    if n == 0 then None else Some(SumByRated(rs, u) as real / n as real)
  }

  predicate ScoresInScale(rs: seq<Rating>) {
    forall x :: x in rs ==> 1 <= x.score <= 5
  }

  lemma {:induction false} SumBounds(rs: seq<Rating>, u: int)
    requires ScoresInScale(rs)
    ensures CountByRated(rs, u) <= SumByRated(rs, u) <= 5 * CountByRated(rs, u)
  {
    if rs != [] {
      SumBounds(rs[1..], u);
    }
  }

  /** When every stored score is 1..5, a user's average is within 1..5 too. */
  lemma AverageWithinScale(rs: seq<Rating>, u: int)
    requires ScoresInScale(rs) && CountByRated(rs, u) > 0
    ensures 1.0 <= AverageByRated(rs, u).value <= 5.0
  {
    SumBounds(rs, u);
    QuotientBounds(SumByRated(rs, u) as real, CountByRated(rs, u) as real);
  }

  /** Dividing both sides of an inequality by a positive real keeps it. */
  lemma CancelPositive(a: real, b: real, n: real)
    requires n > 0.0 && a * n <= b * n
    ensures a <= b
  {
  }

  lemma QuotientBounds(s: real, n: real)
    requires n > 0.0 && n <= s <= 5.0 * n
    ensures 1.0 <= s / n <= 5.0
  {
    var q := s / n;
    assert q * n == s;
    CancelPositive(q, 5.0, n);
    CancelPositive(1.0, q, n);
  }

  // ----- service -----

  /** `mediaPorAvaliado`: the repository average, or 0 when the user has no ratings. */
  function MeanForRated(rs: seq<Rating>, u: int): (m: real)
    ensures CountByRated(rs, u) == 0 ==> m == 0.0
    ensures CountByRated(rs, u) > 0 ==> m == AverageByRated(rs, u).value
    ensures ScoresInScale(rs) && CountByRated(rs, u) > 0 ==> 1.0 <= m <= 5.0
  {
    if CountByRated(rs, u) > 0 then
      if ScoresInScale(rs) then AverageWithinScale(rs, u); AverageByRated(rs, u).value
      else AverageByRated(rs, u).value
    else 0.0
  }

  /** The checks of `criar`, in their order: the score first, then the duplicate. */
  function CheckRating(rs: seq<Rating>, requestId: int, raterId: int, score: Option<int>): (e: Option<RatingError>)
    ensures e.None? <==> score.Some? && 1 <= score.value <= 5 && FindByRequestAndRater(rs, requestId, raterId).None?
    ensures score.None? || score.value < 1 || score.value > 5 ==> e == Some(ScoreOutOfRange)
  {
    if score.None? || score.value < 1 || score.value > 5 then Some(ScoreOutOfRange)
    else if FindByRequestAndRater(rs, requestId, raterId).Some? then Some(AlreadyRated)
    else None
  }

  /** The rating table. */
  class RatingStore {
    var ratings: seq<Rating>

    ghost predicate Valid()
      reads this
    {
      ScoresInScale(ratings) && OnePerRater(ratings)
    }

    constructor ()
      ensures Valid() && ratings == []
    {
      ratings := [];
    }

    /** `criar`: validate, then append a record carrying exactly the given fields, stamped `now`. */
    method Create(requestId: int, raterId: int, ratedId: int, score: Option<int>, comment: Option<string>, now: int)
      returns (res: Result<Rating, RatingError>)
      requires Valid()
      modifies this
      ensures Valid()
      ensures CheckRating(old(ratings), requestId, raterId, score).Some? ==>
        res == Failure(CheckRating(old(ratings), requestId, raterId, score).value) && ratings == old(ratings)
      ensures CheckRating(old(ratings), requestId, raterId, score).None? ==>
        res == Success(Rating(requestId, raterId, ratedId, score.value, comment, now)) &&
        ratings == old(ratings) + [res.value]
    {
      var check := CheckRating(ratings, requestId, raterId, score);
      if check.Some? {
        return Failure(check.value);
      }
      var r := Rating(requestId, raterId, ratedId, score.value, comment, now);
      forall i | 0 <= i < |ratings| ensures !(ratings[i].requestId == requestId && ratings[i].raterId == raterId) {
        assert ratings[i] in ratings;
      }
      ratings := ratings + [r];
      res := Success(r);
    }
  }
}
