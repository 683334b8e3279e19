/**
 * The donation endpoints: the field and date validation of create and update,
 * donor attachment, and the request endpoints (request, view, cancel, list,
 * accept, reject, collect) as guard chains in front of the request store.
 * Days are integers; "today" is a parameter.
 */
module DonationController {
  import opened Common
  import opened Text
  import opened RequestStatus
  import opened Requests

  /** What the authentication service answers: which tokens are valid, and the user each resolves to. */
  datatype AuthService = AuthService(validTokens: set<string>, users: map<string, int>)

  /** The token after "Bearer " (`authHeader.substring(7)`), when the header is present and has that prefix. */
  function BearerToken(header: Option<string>): (t: Option<string>)
    ensures t.Some? <==> header.Some? && StartsWith(header.value, "Bearer ")
    ensures t.Some? ==> header.value == "Bearer " + t.value
  {
    if header.Some? && StartsWith(header.value, "Bearer ") then Some(header.value[7..]) else None
  }

  /**
   * The prefix every protected endpoint runs: 401 without a bearer token, 401
   * for an invalid token, 404 when the token resolves to no user, else the user id.
   */
  function Authenticate(auth: AuthService, header: Option<string>): (r: Result<int, int>)
    ensures r.Failure? ==> r.error == 401 || r.error == 404
    ensures r == Failure(401) <==> BearerToken(header).None? || BearerToken(header).value !in auth.validTokens
    ensures r.Success? ==> var t := BearerToken(header).value;
      t in auth.validTokens && t in auth.users && r.value == auth.users[t]
  {
    match BearerToken(header)
    case None => Failure(401)
    case Some(t) =>
      if t !in auth.validTokens then Failure(401)
      else if t !in auth.users then Failure(404)
      else Success(auth.users[t])
  }

  // ----- create and update validation -----

  /** The fields of the submitted donation that the endpoints inspect. */
  datatype DonationForm = DonationForm(
    title: Option<string>, city: Option<string>, address: Option<string>,
    expiry: Option<int>, collection: Option<int>,
    active: Option<bool>, image: Option<string>)

  /** Why a donation form is refused with 400, one constructor per check. */
  datatype Invalid = MissingTitle | MissingCity | MissingAddress
    | ExpiryNotAfterToday | CollectionBeforeToday | ExpiryNotAfterCollection

  predicate Filled(s: Option<string>) { s.Some? && !JavaTrimsToEmpty(s.value) }

  /** The rules a valid form meets, stated without their order. */
  predicate FormOk(f: DonationForm, today: int) {
    Filled(f.title) && Filled(f.city) && Filled(f.address) &&
    (f.expiry.Some? ==> f.expiry.value > today) &&
    (f.collection.Some? ==> f.collection.value >= today) &&
    (f.expiry.Some? && f.collection.Some? ==> f.expiry.value > f.collection.value)
  }

  /** The checks of `criar` and `atualizar`, in their order; `None` when the form passes. */
  function Validate(f: DonationForm, today: int): (r: Option<Invalid>)
    ensures r.None? <==> FormOk(f, today)
    ensures !Filled(f.title) ==> r == Some(MissingTitle)
    ensures Filled(f.title) && !Filled(f.city) ==> r == Some(MissingCity)
    ensures r == Some(ExpiryNotAfterCollection) ==>
      f.expiry.Some? && f.collection.Some? && f.expiry.value > today && f.collection.value >= today
  {
    if !Filled(f.title) then Some(MissingTitle)
    else if !Filled(f.city) then Some(MissingCity)
    else if !Filled(f.address) then Some(MissingAddress)
    else if f.expiry.Some? && !(f.expiry.value > today) then Some(ExpiryNotAfterToday)
    else if f.collection.Some? && f.collection.value < today then Some(CollectionBeforeToday)
    else if f.expiry.Some? && f.collection.Some? && !(f.expiry.value > f.collection.value) then Some(ExpiryNotAfterCollection)
    else None
  }

  /**
   * `criar`: a valid form is passed on with the donor resolved from an optional
   * bearer token; a missing or invalid token is not an error, the donation is
   * simply created without a donor.
   */
  function CreateDonation(auth: AuthService, header: Option<string>, f: DonationForm, today: int): (r: Result<Option<int>, Invalid>)
    ensures r.Failure? <==> !FormOk(f, today)
    ensures r.Success? ==> (r.value.Some? <==>
      BearerToken(header).Some? && BearerToken(header).value in auth.validTokens && BearerToken(header).value in auth.users)
    ensures r.Success? && r.value.Some? ==> Authenticate(auth, header) == Success(r.value.value)
  {
    match Validate(f, today)
    case Some(e) => Failure(e)
    case None =>
      match BearerToken(header)
      case Some(t) =>
        if t in auth.validTokens && t in auth.users then Success(Some(auth.users[t])) else Success(None)
      case None => Success(None)
  }

  /** Some request on donation `d` has been concluded. */
  predicate HasConcluded(m: map<int, Request>, d: int) {
    exists k :: k in m && m[k].donationId == d && m[k].status == Concluida
  }

  /**
   * What `atualizar` does: the HTTP status, the old image it deletes (if any)
   * and the form it hands to the donation service on success.
   */
  datatype UpdateOutcome = UpdateOutcome(code: int, deleted: Option<string>, applied: Option<DonationForm>)

  function UpdateDonation(auth: AuthService, header: Option<string>, ds: map<int, Donation>, m: map<int, Request>,
                          id: int, f: DonationForm, today: int): (r: UpdateOutcome)
    ensures r.code in {200, 400, 401, 403, 404}
    ensures r.applied.Some? <==> r.code == 200
    ensures Authenticate(auth, header).Failure? ==> r == UpdateOutcome(Authenticate(auth, header).error, None, None)
    ensures Authenticate(auth, header).Success? && id !in ds ==> r == UpdateOutcome(404, None, None)
    ensures Authenticate(auth, header).Success? && id in ds && ds[id].donorId != Some(Authenticate(auth, header).value) ==>
      r == UpdateOutcome(403, None, None)
    ensures (Authenticate(auth, header).Success? && id in ds && ds[id].donorId == Some(Authenticate(auth, header).value) &&
             HasConcluded(m, id) && f.active == Some(true)) ==>
      r == UpdateOutcome(400, None, None)
    ensures (Authenticate(auth, header).Success? && id in ds && ds[id].donorId == Some(Authenticate(auth, header).value) &&
             !(HasConcluded(m, id) && f.active == Some(true)) && !FormOk(f, today)) ==>
      r.code == 400 && r.applied.None?
    ensures r.code == 200 <==> (Authenticate(auth, header).Success? && id in ds &&
      ds[id].donorId == Some(Authenticate(auth, header).value) &&
      !(HasConcluded(m, id) && f.active == Some(true)) && FormOk(f, today))
    ensures r.code == 200 && HasConcluded(m, id) ==> r.applied.value.active == Some(false)
    ensures r.code == 200 && !HasConcluded(m, id) ==> r.applied == Some(f)
    ensures r.deleted.Some? ==> (r.code in {200, 400} && id in ds && r.deleted == ds[id].image &&
      f.image.Some? && f.image != ds[id].image)
    ensures (Authenticate(auth, header).Success? && id in ds && ds[id].donorId == Some(Authenticate(auth, header).value) &&
             !(HasConcluded(m, id) && f.active == Some(true)) &&
             f.image.Some? && f.image != ds[id].image && ds[id].image.Some?) ==>
      r.deleted == ds[id].image
  {
    match Authenticate(auth, header)
    case Failure(code) => UpdateOutcome(code, None, None)
    case Success(user) =>
      if id !in ds then UpdateOutcome(404, None, None)
      else if ds[id].donorId.None? || ds[id].donorId.value != user then UpdateOutcome(403, None, None)
      else
        var concluded := HasConcluded(m, id);
        if concluded && f.active == Some(true) then UpdateOutcome(400, None, None)
        else
          var f' := if concluded then f.(active := Some(false)) else f;
          var deleted := if f'.image.Some? && f'.image != ds[id].image && ds[id].image.Some? then ds[id].image else None;
          if Validate(f', today).Some? then UpdateOutcome(400, deleted, None)
          else UpdateOutcome(200, deleted, Some(f'))
  }

  /** The old image is deleted before the fields are validated, so a refused update can still lose it. */
  lemma UpdateDeletesImageOfRefusedForm()
    ensures var ds := map[1 := Donation(Some(9), true, Some("/uploads/alimentos/food_1.png"))];
      var auth := AuthService({"t"}, map["t" := 9]);
      var f := DonationForm(None, Some("Recife"), Some("Rua A"), None, None, None, Some("/uploads/alimentos/food_1.jpg"));
      var r := UpdateDonation(auth, Some("Bearer t"), ds, map[], 1, f, 0);
      r.code == 400 && r.deleted == Some("/uploads/alimentos/food_1.png")
  {
    var f := DonationForm(None, Some("Recife"), Some("Rua A"), None, None, None, Some("/uploads/alimentos/food_1.jpg"));
    assert !Filled(f.title);
    assert BearerToken(Some("Bearer t")) == Some("t");
  }

  // ----- request endpoints -----

  /** The reply of a request endpoint: an HTTP status and, on success, the request's status wire string. */
  datatype Reply = Reply(code: int, status: Option<string>)

  /** The guards of `solicitarDoacao` before the service runs: the requester id, or the refusal code. */
  function RequestGate(auth: AuthService, header: Option<string>, ds: map<int, Donation>, donationId: int): (r: Result<int, int>)
    ensures r.Success? <==> (Authenticate(auth, header).Success? && donationId in ds &&
      ds[donationId].active && ds[donationId].donorId != Some(Authenticate(auth, header).value))
    ensures r.Success? ==> r.value == Authenticate(auth, header).value
    ensures Authenticate(auth, header).Failure? ==> r == Authenticate(auth, header)
    ensures Authenticate(auth, header).Success? && donationId !in ds ==> r == Failure(404)
    ensures Authenticate(auth, header).Success? && donationId in ds && !ds[donationId].active ==> r == Failure(400)
    ensures Authenticate(auth, header).Success? && donationId in ds && ds[donationId].donorId == Some(Authenticate(auth, header).value) ==>
      r == Failure(400)
  {
    match Authenticate(auth, header)
    case Failure(code) => Failure(code)
    case Success(user) =>
      if donationId !in ds then Failure(404)
      else if !ds[donationId].active then Failure(400)
      else if ds[donationId].donorId.Some? && ds[donationId].donorId.value == user then Failure(400)
      else Success(user)
  }

  /** `solicitarDoacao`: the guards, then `criar`; a service refusal is 400, success carries "solicitada". */
  method RequestDonation(store: RequestStore, auth: AuthService, header: Option<string>, donationId: int, now: int)
    returns (reply: Reply)
    requires store.Valid()
    modifies store
    ensures store.Valid() && store.donations == old(store.donations)
    ensures RequestGate(auth, header, old(store.donations), donationId).Failure? ==>
      reply == Reply(RequestGate(auth, header, old(store.donations), donationId).error, None) &&
      store.requests == old(store.requests)
    ensures RequestGate(auth, header, old(store.donations), donationId).Success? ==>
      var o := CreateSpec(old(store.requests), donationId, RequestGate(auth, header, old(store.donations), donationId).value, old(store.nextId), now);
      store.requests == o.requests &&
      reply == (if o.result.Success? then Reply(200, Some(Valor(Solicitada))) else Reply(400, None))
  {
    match RequestGate(auth, header, store.donations, donationId)
    case Failure(code) =>
      reply := Reply(code, None);
    case Success(user) =>
      var res := store.Create(donationId, user, now);
      if res.Success? {
        reply := Reply(200, Some(Valor(store.requests[res.value].status)));
      } else {
        reply := Reply(400, None);
      }
  }

  /**
   * The guards of `obterSolicitacao` and `cancelarSolicitacao`: the caller must
   * be the request's requester or its donation's donor, else 403.
   */
  function PartyGate(auth: AuthService, header: Option<string>, m: map<int, Request>, ds: map<int, Donation>, id: int): (r: Result<int, int>)
    requires DonationsKnown(m, ds)
    ensures r.Failure? ==> r.error in {401, 403, 404}
    ensures Authenticate(auth, header).Failure? ==> r == Authenticate(auth, header)
    ensures Authenticate(auth, header).Success? && id !in m ==> r == Failure(404)
    ensures r.Success? <==> (Authenticate(auth, header).Success? && id in m &&
      (m[id].requesterId == Authenticate(auth, header).value || ds[m[id].donationId].donorId == Some(Authenticate(auth, header).value)))
    ensures Authenticate(auth, header).Success? && id in m && r.Failure? ==> r.error == 403
  {
    match Authenticate(auth, header)
    case Failure(code) => Failure(code)
    case Success(user) =>
      if id !in m then Failure(404)
      else if m[id].requesterId == user || ds[m[id].donationId].donorId == Some(user) then Success(user)
      else Failure(403)
  }

  /** `obterSolicitacao`: the request itself for one of its two parties. */
  function ViewRequest(auth: AuthService, header: Option<string>, m: map<int, Request>, ds: map<int, Donation>, id: int): (r: Result<Request, int>)
    requires DonationsKnown(m, ds)
    ensures r.Success? <==> PartyGate(auth, header, m, ds, id).Success?
    ensures r.Success? ==> id in m && r.value == m[id]
    ensures r.Failure? ==> r.error == PartyGate(auth, header, m, ds, id).error
  {
    match PartyGate(auth, header, m, ds, id)
    case Failure(code) => Failure(code)
    case Success(_) => Success(m[id])
  }

  /** `cancelarSolicitacao`: a party cancels the request whatever its status; others get 403 and nothing changes. */
  method CancelRequest(store: RequestStore, auth: AuthService, header: Option<string>, id: int, now: int) returns (code: int)
    requires store.Valid()
    modifies store
    ensures store.Valid() && store.donations == old(store.donations)
    ensures PartyGate(auth, header, old(store.requests), old(store.donations), id).Failure? ==>
      code == PartyGate(auth, header, old(store.requests), old(store.donations), id).error &&
      store.requests == old(store.requests)
    ensures PartyGate(auth, header, old(store.requests), old(store.donations), id).Success? ==>
      code == 200 && store.requests == old(store.requests)[id := Stamped(old(store.requests)[id], Cancelada, now)]
  {
    match PartyGate(auth, header, store.requests, store.donations, id)
    case Failure(c) =>
      code := c;
    case Success(_) =>
      var _ := store.Cancel(id, now);
      code := 200;
  }

  /** `listarSolicitacoesDaDoacao`: the donation's requests, for its donor only. */
  function ListDonationRequests(auth: AuthService, header: Option<string>, m: map<int, Request>, ds: map<int, Donation>, d: int): (r: Result<map<int, Request>, int>)
    ensures r.Success? <==> Authenticate(auth, header).Success? && d in ds && ds[d].donorId == Some(Authenticate(auth, header).value)
    ensures r.Success? ==> r.value == ByDonation(m, d)
    ensures Authenticate(auth, header).Failure? ==> r == Failure(Authenticate(auth, header).error)
    ensures Authenticate(auth, header).Success? && d !in ds ==> r == Failure(404)
    ensures Authenticate(auth, header).Success? && d in ds && r.Failure? ==> r.error == 403
  {
    match Authenticate(auth, header)
    case Failure(code) => Failure(code)
    case Success(user) =>
      if d !in ds then Failure(404)
      else if ds[d].donorId.None? || ds[d].donorId.value != user then Failure(403)
      else Success(ByDonation(m, d))
  }

  /** The accept endpoint: authentication, then `aceitar`; refusals are 400, success carries "em_andamento". */
  method AcceptRequest(store: RequestStore, auth: AuthService, header: Option<string>, id: int, now: int) returns (reply: Reply)
    requires store.Valid()
    modifies store
    ensures store.Valid() && store.donations == old(store.donations)
    ensures Authenticate(auth, header).Failure? ==>
      reply == Reply(Authenticate(auth, header).error, None) && store.requests == old(store.requests)
    ensures Authenticate(auth, header).Success? ==>
      var check := DonorCheck(old(store.requests), old(store.donations), id, Authenticate(auth, header).value);
      (check.Some? ==> reply == Reply(400, None) && store.requests == old(store.requests)) &&
      (check.None? ==> reply == Reply(200, Some(Valor(EmAndamento))) && store.requests == AcceptSpec(old(store.requests), id, now))
  {
    match Authenticate(auth, header)
    case Failure(code) =>
      reply := Reply(code, None);
    case Success(user) =>
      var res := store.Accept(id, user, now);
      reply := if res.Success? then Reply(200, Some(Valor(res.value.status))) else Reply(400, None);
  }

  /** The reject endpoint: authentication, then `recusar`; success carries "cancelada". */
  method RejectRequest(store: RequestStore, auth: AuthService, header: Option<string>, id: int, now: int) returns (reply: Reply)
    requires store.Valid()
    modifies store
    ensures store.Valid() && store.donations == old(store.donations)
    ensures Authenticate(auth, header).Failure? ==>
      reply == Reply(Authenticate(auth, header).error, None) && store.requests == old(store.requests)
    ensures Authenticate(auth, header).Success? ==>
      var check := DonorCheck(old(store.requests), old(store.donations), id, Authenticate(auth, header).value);
      (check.Some? ==> reply == Reply(400, None) && store.requests == old(store.requests)) &&
      (check.None? ==> (reply == Reply(200, Some(Valor(Cancelada))) &&
        store.requests == old(store.requests)[id := Stamped(old(store.requests)[id], Cancelada, now)]))
  {
    match Authenticate(auth, header)
    case Failure(code) =>
      reply := Reply(code, None);
    case Success(user) =>
      var res := store.Reject(id, user, now);
      reply := if res.Success? then Reply(200, Some(Valor(res.value.status))) else Reply(400, None);
  }

  /** The collect endpoint: authentication, then `marcarColetada`; success carries "concluida". */
  method CollectRequest(store: RequestStore, auth: AuthService, header: Option<string>, id: int, now: int) returns (reply: Reply)
    requires store.Valid()
    modifies store
    ensures store.Valid()
    ensures Authenticate(auth, header).Failure? ==>
      reply == Reply(Authenticate(auth, header).error, None) &&
      store.requests == old(store.requests) && store.donations == old(store.donations)
    ensures Authenticate(auth, header).Success? ==>
      var check := CollectCheck(old(store.requests), old(store.donations), id, Authenticate(auth, header).value);
      (check.Some? ==> reply == Reply(400, None) && store.requests == old(store.requests) && store.donations == old(store.donations)) &&
      (check.None? ==> (var d := old(store.requests)[id].donationId;
        reply == Reply(200, Some(Valor(Concluida))) &&
        store.requests == old(store.requests)[id := Stamped(old(store.requests)[id], Concluida, now)] &&
        store.donations == old(store.donations)[d := old(store.donations)[d].(active := false)]))
  {
    match Authenticate(auth, header)
    case Failure(code) =>
      reply := Reply(code, None);
    case Success(user) =>
      var res := store.MarkCollected(id, user, now);
      reply := if res.Success? then Reply(200, Some(Valor(res.value.status))) else Reply(400, None);
  }
}
