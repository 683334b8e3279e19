/**
 * The rating endpoints: the guard chain in front of the rating service
 * (authentication, a concluded request, the rater and the rated user both
 * parties to it, no self-rating) and the per-user average with its count.
 */
module RatingController {
  import opened Common
  import opened RequestStatus
  import opened Requests
  import opened Ratings
  import opened DonationController

  /** The two parties of a request: its requester and, when the donation has one, its donor. */
  function Parties(m: map<int, Request>, ds: map<int, Donation>, id: int): (p: set<int>)
    requires id in m && DonationsKnown(m, ds)
    ensures m[id].requesterId in p
    ensures forall u :: u in p <==> (u == m[id].requesterId || ds[m[id].donationId].donorId == Some(u))
  {
    var donor := ds[m[id].donationId].donorId;
    {m[id].requesterId} + (if donor.Some? then {donor.value} else {})
  }

  /**
   * The checks of `criar` before the service is called, in their order:
   * 401/401/404 from authentication, 404 for an unknown request, 400 unless it
   * is concluded, 403 unless the caller is a party, 400 unless the rated user is
   * a party (a missing rated id is never one), 400 for rating oneself.
   * On success, the rater's id.
   */
  function RateGate(auth: AuthService, header: Option<string>, m: map<int, Request>, ds: map<int, Donation>,
                    requestId: int, ratedId: Option<int>): (r: Result<int, int>)
    requires DonationsKnown(m, ds)
    ensures r.Failure? ==> r.error in {400, 401, 403, 404}
    ensures Authenticate(auth, header).Failure? ==> r == Authenticate(auth, header)
    ensures Authenticate(auth, header).Success? && requestId !in m ==> r == Failure(404)
    ensures Authenticate(auth, header).Success? && requestId in m && m[requestId].status != Concluida ==> r == Failure(400)
    ensures r.Success? <==> (Authenticate(auth, header).Success? && requestId in m &&
      m[requestId].status == Concluida && ratedId.Some? &&
      Authenticate(auth, header).value in Parties(m, ds, requestId) &&
      ratedId.value in Parties(m, ds, requestId) &&
      ratedId.value != Authenticate(auth, header).value)
    ensures r.Success? ==> r.value == Authenticate(auth, header).value
  {
    match Authenticate(auth, header)
    case Failure(code) => Failure(code)
    case Success(rater) =>
      if requestId !in m then Failure(404)
      else if m[requestId].status != Concluida then Failure(400)
      else if rater !in Parties(m, ds, requestId) then Failure(403)
      else if ratedId.None? || ratedId.value !in Parties(m, ds, requestId) then Failure(400)
      else if ratedId.value == rater then Failure(400)
      else Success(rater)
  }

  /**
   * A successful gate means the rated user is the other party: the two ids are
   * distinct and together they are exactly the requester and the donor.
   */
  lemma RatedIsTheOtherParty(auth: AuthService, header: Option<string>, m: map<int, Request>, ds: map<int, Donation>,
                             requestId: int, ratedId: Option<int>)
    requires DonationsKnown(m, ds)
    requires RateGate(auth, header, m, ds, requestId, ratedId).Success?
    ensures var rater := RateGate(auth, header, m, ds, requestId, ratedId).value;
      requestId in m && ratedId.Some? && rater != ratedId.value &&
      ds[m[requestId].donationId].donorId.Some? &&
      {rater, ratedId.value} == {m[requestId].requesterId, ds[m[requestId].donationId].donorId.value}
  {
    var rater := RateGate(auth, header, m, ds, requestId, ratedId).value;
    var p := Parties(m, ds, requestId);
    assert rater in p && ratedId.value in p;
  }

  /**
   * `criar`: the gate, then the service. The service's own refusals (score
   * outside 1..5 or missing, a second rating) become 400; success is 200 with
   * the stored record. Nothing is stored unless the answer is 200.
   */
  method Rate(store: RatingStore, auth: AuthService, header: Option<string>, m: map<int, Request>, ds: map<int, Donation>,
              requestId: int, ratedId: Option<int>, score: Option<int>, comment: Option<string>, now: int)
    returns (code: int, saved: Option<Rating>)
    requires store.Valid() && DonationsKnown(m, ds)
    modifies store
    ensures store.Valid()
    ensures code in {200, 400, 401, 403, 404}
    ensures RateGate(auth, header, m, ds, requestId, ratedId).Failure? ==>
      code == RateGate(auth, header, m, ds, requestId, ratedId).error && saved.None? && store.ratings == old(store.ratings)
    ensures RateGate(auth, header, m, ds, requestId, ratedId).Success? ==>
      var rater := RateGate(auth, header, m, ds, requestId, ratedId).value;
      var check := CheckRating(old(store.ratings), requestId, rater, score);
      (check.Some? ==> code == 400 && saved.None? && store.ratings == old(store.ratings)) &&
      (check.None? ==>
        code == 200 &&
        saved == Some(Rating(requestId, rater, ratedId.value, score.value, comment, now)) &&
        store.ratings == old(store.ratings) + [saved.value])
  {
    var gate := RateGate(auth, header, m, ds, requestId, ratedId);
    if gate.Failure? {
      return gate.error, None;
    }
    var res := store.Create(requestId, gate.value, ratedId.value, score, comment, now);
    if res.Failure? {
      return 400, None;
    }
    return 200, Some(res.value);
  }

  /** The body of `mediaPorAvaliado`: the user's average (0 without ratings) and how many ratings they received. */
  datatype Summary = Summary(mean: real, total: nat)

  function RatedSummary(rs: seq<Rating>, u: int): (s: Summary)
    ensures s.total == |ByRated(rs, u)|
    ensures s.total == 0 ==> s.mean == 0.0
    ensures ScoresInScale(rs) ==> (s.mean == 0.0 <==> s.total == 0)
    ensures s.total > 0 ==> AverageByRated(rs, u) == Some(s.mean)
    ensures ScoresInScale(rs) && s.total > 0 ==> 1.0 <= s.mean <= 5.0
  {
    CountByRatedIsFinderSize(rs, u);
    Summary(MeanForRated(rs, u), CountByRated(rs, u))
  }
}
