/**
 * The front end of the mutual rating after a request: whether the rating
 * dialog opens at all, whom it rates, whether the user's earlier rating is
 * shown instead, and the dialog's star picker with its label and its submit
 * guard. Fetched data are parameters holding what the fetches gave.
 */
module RatingClient {
  import opened Common

  /** A request as the dialog reads it: the donor's id and the requester's id, either possibly missing. */
  datatype Req = Req(id: int, donorId: Option<int>, requesterId: Option<int>)

  /** An existing rating of the request and the id of the user who gave it, if present. */
  datatype Given = Given(raterId: Option<int>, score: int)

  datatype Outcome =
    | NoToken
    | UserUnavailable
    | RequestNotFound
    | NoRatedUser
    | ShowExisting(existing: Given)
    | ShowForm(ratedId: int)

  /** The first request of a list with the id: `find`. */
  function FindRequest(rs: seq<Req>, id: int): (r: Option<Req>)
    ensures r.Some? ==> exists k :: 0 <= k < |rs| && rs[k] == r.value && rs[k].id == id &&
                          forall j :: 0 <= j < k ==> rs[j].id != id
    ensures r.None? ==> forall x :: x in rs ==> x.id != id
  {
    match FirstIndex(rs, (x: Req) => x.id == id)
    case Some(k) => Some(rs[k])
    case None => None
  }

  /**
   * The request the dialog works on: the one handed over; else the one the
   * request endpoint answered; else, when that failed, the one with the id in
   * the user's own list (if that list could be fetched).
   */
  function ResolveRequest(given: Option<Req>, byId: Option<Req>, mine: Option<seq<Req>>, requestId: int): (r: Option<Req>)
    ensures given.Some? ==> r == given
    ensures given.None? && byId.Some? ==> r == byId
    ensures r.None? <==> given.None? && byId.None? && (mine.None? || forall x :: x in mine.value ==> x.id != requestId)
  {
    if given.Some? then given
    else if byId.Some? then byId
    else if mine.Some? then FindRequest(mine.value, requestId)
    else None
  }

  /** Whether a rating was given by the user. */
  predicate ByUser(g: Given, userId: int) {
    g.raterId == Some(userId)
  }

  /** The first rating given by the user: `find`. */
  function FirstBy(gs: seq<Given>, userId: int): (g: Option<Given>)
    ensures g.Some? ==> exists k :: 0 <= k < |gs| && gs[k] == g.value && ByUser(gs[k], userId) &&
                          forall j :: 0 <= j < k ==> !ByUser(gs[j], userId)
    ensures g.None? <==> forall x :: x in gs ==> !ByUser(x, userId)
  {
    match FirstIndex(gs, (x: Given) => ByUser(x, userId))
    case Some(k) => Some(gs[k])
    case None => None
  }

  /** Whom the current user rates: the requester when the user is the donor, the donor otherwise. */
  function RatedId(r: Req, userId: int): (rated: Option<int>)
    ensures r.donorId == Some(userId) ==> rated == r.requesterId
    ensures r.donorId != Some(userId) ==> rated == r.donorId
  {
    if r.donorId == Some(userId) then r.requesterId else r.donorId
  }

  /**
   * `showEvaluationModal`: nothing without a token, nor when the user cannot be
   * fetched or the request is not found, nor when the rated user's id is
   * missing (or 0); the user's earlier rating when there is one; else the form.
   * `ratings` is what the ratings fetch gave (empty when it failed).
   */
  function Prepare(hasToken: bool, ratings: seq<Given>, currentUser: Option<int>, request: Option<Req>): (o: Outcome)
    ensures o == NoToken <==> !hasToken
    ensures hasToken && currentUser.None? ==> o == UserUnavailable
    ensures hasToken && currentUser.Some? && request.None? ==> o == RequestNotFound
    ensures o.ShowForm? ==>
      && currentUser.Some? && request.Some?
      && Some(o.ratedId) == RatedId(request.value, currentUser.value) && o.ratedId != 0
      && forall g :: g in ratings ==> !ByUser(g, currentUser.value)
    ensures o.ShowExisting? ==> currentUser.Some? && o.existing in ratings && ByUser(o.existing, currentUser.value)
    ensures hasToken && currentUser.Some? && request.Some? ==>
      var rated := RatedId(request.value, currentUser.value);
      (o == NoRatedUser <==> rated.None? || rated.value == 0) &&
      (rated.Some? && rated.value != 0 && (forall g :: g in ratings ==> !ByUser(g, currentUser.value)) ==>
        o == ShowForm(rated.value))
  {
    if !hasToken then NoToken
    else if currentUser.None? then UserUnavailable
    else if request.None? then RequestNotFound
    else
      var user := currentUser.value;
      var rated := RatedId(request.value, user);
      if rated.None? || rated.value == 0 then NoRatedUser
      else match FirstBy(ratings, user)
        case Some(g) => ShowExisting(g)
        case None => ShowForm(rated.value)
  }

  /** Between two different people, the form always rates the other party of the request. */
  lemma RatesTheOtherParty(ratings: seq<Given>, user: int, r: Req)
    requires r.donorId.Some? && r.requesterId.Some? && r.donorId != r.requesterId
    requires user == r.donorId.value || user == r.requesterId.value
    requires Prepare(true, ratings, Some(user), Some(r)).ShowForm?
    ensures Prepare(true, ratings, Some(user), Some(r)).ratedId != user
    ensures Some(Prepare(true, ratings, Some(user), Some(r)).ratedId) in {r.donorId, r.requesterId}
  {
  }

  /** A user who has rated already never gets a second form: the earlier rating is shown. */
  lemma NoSecondForm(ratings: seq<Given>, user: int, r: Req, g: Given)
    requires g in ratings && ByUser(g, user)
    requires RatedId(r, user).Some? && RatedId(r, user).value != 0
    ensures Prepare(true, ratings, Some(user), Some(r)).ShowExisting?
  {
  }

  /** `updateRatingText`: the label of a score from 1 to 5, else the prompt. */
  function RatingText(rating: int): (t: string)
    ensures !(1 <= rating <= 5) ==> t == "Selecione uma nota"
    ensures 1 <= rating <= 5 ==> t != "Selecione uma nota"
  {
    match rating
    case 1 => "Muito Ruim"
    case 2 => "Ruim"
    case 3 => "Regular"
    case 4 => "Bom"
    case 5 => "Excelente"
    case _ => "Selecione uma nota"
  }

  /** Each score has its own label. */
  lemma RatingTextInjective(a: int, b: int)
    requires 1 <= a <= 5 && 1 <= b <= 5 && a != b
    ensures RatingText(a) != RatingText(b)
  {
  }

  /** The rating dialog's picker: the chosen score and how each star is drawn. */
  class RatingForm {
    var selectedRating: nat
    /** Whether each star is drawn filled. */
    const stars: array<bool>
    var ratingText: string

    ghost predicate Valid()
      reads this
    {
      selectedRating <= stars.Length
    }

    constructor (stars: array<bool>)
      ensures Valid() && this.stars == stars && selectedRating == 0
    {
      this.stars := stars;
      selectedRating := 0;
      ratingText := "Selecione uma nota";
    }

    /** `updateStars`: the stars before `rating` are filled, the others empty. */
    method UpdateStars(rating: int)
      modifies stars
      ensures forall i :: 0 <= i < stars.Length ==> (stars[i] <==> i < rating)
    {
      for i := 0 to stars.Length
        invariant forall j :: 0 <= j < i ==> (stars[j] <==> j < rating)
      {
        stars[i] := i < rating;
      }
    }

    /** A click on star `index` chooses the score `index + 1` and redraws the stars and the label. */
    method Click(index: nat)
      requires Valid() && index < stars.Length
      modifies this, stars
      ensures Valid() && selectedRating == index + 1 && selectedRating >= 1
      ensures forall i :: 0 <= i < stars.Length ==> (stars[i] <==> i <= index)
      ensures ratingText == RatingText(index + 1)
    {
      selectedRating := index + 1;
      UpdateStars(selectedRating);
      ratingText := RatingText(selectedRating);
    }

    /** Hovering star `index` previews `index + 1` stars without changing the score. */
    method Hover(index: nat)
      requires Valid()
      modifies stars
      ensures forall i :: 0 <= i < stars.Length ==> (stars[i] <==> i <= index)
    {
      UpdateStars(index + 1);
    }

    /** Leaving the stars draws the chosen score again. */
    method Leave()
      requires Valid()
      modifies stars
      ensures forall i :: 0 <= i < stars.Length ==> (stars[i] <==> i < selectedRating)
    {
      UpdateStars(selectedRating);
    }

    /** The submit button: refused while no score is chosen, else the chosen score goes out. */
    method Submit() returns (score: Option<nat>)
      requires Valid()
      ensures score.None? <==> selectedRating == 0
      ensures score.Some? ==> score.value == selectedRating && 1 <= score.value <= stars.Length
    {
      if selectedRating == 0 {
        return None;
      }
      return Some(selectedRating);
    }
  }
}
