/**
 * Donation requests (`Solicitacao`), their repository finders and the request
 * service: create or revive, accept, reject, mark collected, cancel and
 * overwrite the status. Times are opaque integers supplied by the caller.
 */
module Requests {
  import opened Common
  import opened RequestStatus

  /** A stored request: which donation, who asked, its status and its two timestamps. */
  datatype Request = Request(donationId: int, requesterId: int, status: Status, requestedAt: int, updatedAt: Option<int>)

  /** The part of a donation (`Doacao`) that the request endpoints read and write. */
  datatype Donation = Donation(donorId: Option<int>, active: bool, image: Option<string>)

  /** Why a service operation refused; each is an `IllegalArgumentException` in the service. */
  datatype Failure = NotFound | NotDonor | NotParty | NotPending | NotInProgress | AlreadyRequested

  /** A request as constructed: pending, stamped with its creation time, never updated. */
  function NewRequest(donationId: int, requesterId: int, now: int): (r: Request)
    ensures r.status == Solicitada && r.requestedAt == now && r.updatedAt == None
    ensures r.donationId == donationId && r.requesterId == requesterId
  {
    Request(donationId, requesterId, Solicitada, now, None)
  }

  /** The effect of `setStatus`: new status, update time refreshed, everything else kept. */
  function Stamped(r: Request, s: Status, now: int): (r': Request)
    ensures r'.status == s && r'.updatedAt == Some(now)
    ensures r'.donationId == r.donationId && r'.requesterId == r.requesterId && r'.requestedAt == r.requestedAt
  {
    r.(status := s, updatedAt := Some(now))
  }

  /** The mutable entity: field defaults at construction and `setStatus`. */
  class RequestRecord {
    var donationId: int
    var requesterId: int
    var status: Status
    var requestedAt: int
    var updatedAt: Option<int>

    function Value(): Request
      reads this
    {
      Request(donationId, requesterId, status, requestedAt, updatedAt)
    }

    constructor (donationId: int, requesterId: int, now: int)
      ensures Value() == NewRequest(donationId, requesterId, now)
    {
      this.donationId := donationId;
      this.requesterId := requesterId;
      status := Solicitada;
      requestedAt := now;
      updatedAt := None;
    }

    method SetStatus(s: Status, now: int)
      modifies this
      ensures Value() == Stamped(old(Value()), s, now)
    {
      status := s;
      updatedAt := Some(now);
    }
  }

  // ----- repository finders -----

  /** `findByDoacaoId`: the requests on donation `d`. */
  function ByDonation(m: map<int, Request>, d: int): (r: map<int, Request>)
    ensures forall k :: k in r <==> k in m && m[k].donationId == d
    ensures forall k :: k in r ==> r[k] == m[k]
  {
    map k | k in m && m[k].donationId == d :: m[k]
  }

  /** `findBySolicitanteId`: the requests made by user `u`. */
  function ByRequester(m: map<int, Request>, u: int): (r: map<int, Request>)
    ensures forall k :: k in r <==> k in m && m[k].requesterId == u
    ensures forall k :: k in r ==> r[k] == m[k]
  {
    map k | k in m && m[k].requesterId == u :: m[k]
  }

  /** `findBySolicitanteIdAndStatus`: the requests of user `u` in status `s`. */
  function ByRequesterAndStatus(m: map<int, Request>, u: int, s: Status): (r: map<int, Request>)
    ensures forall k :: k in r <==> k in m && m[k].requesterId == u && m[k].status == s
    ensures forall k :: k in r ==> r[k] == m[k]
  {
    map k | k in m && m[k].requesterId == u && m[k].status == s :: m[k]
  }

  /** The status finder splits the requester finder: each request lands in exactly one status bucket. */
  lemma RequesterFinderPartition(m: map<int, Request>, u: int)
    ensures forall k :: k in ByRequester(m, u) <==>
      exists s: Status :: k in ByRequesterAndStatus(m, u, s)
    ensures forall k, s: Status, t: Status ::
      k in ByRequesterAndStatus(m, u, s) && k in ByRequesterAndStatus(m, u, t) ==> s == t
  {
    forall k | k in ByRequester(m, u)
      ensures exists s: Status :: k in ByRequesterAndStatus(m, u, s)
    {
      assert k in ByRequesterAndStatus(m, u, m[k].status);
    }
  }

  /** Ids of the requests for the pair (donation `d`, requester `u`). */
  function PairIds(m: map<int, Request>, d: int, u: int): set<int>
  {
    set k | k in m && m[k].donationId == d && m[k].requesterId == u
  }

  /** At most one request per (donation, requester) pair. */
  ghost predicate PairsUnique(m: map<int, Request>)
  {
    forall a, b ::
      (a in m && b in m && m[a].donationId == m[b].donationId && m[a].requesterId == m[b].requesterId) ==> a == b
  }

  /** `findByDoacaoIdAndSolicitanteId`: the one request of the pair, if any. */
  function FindByDonationAndRequester(m: map<int, Request>, d: int, u: int): (r: Option<int>)
    requires PairsUnique(m)
    ensures r.None? <==> PairIds(m, d, u) == {}
    ensures r.Some? ==> PairIds(m, d, u) == {r.value}
  {
    if exists k :: k in m && m[k].donationId == d && m[k].requesterId == u then
      var k :| k in m && m[k].donationId == d && m[k].requesterId == u;
      assert forall j :: j in PairIds(m, d, u) ==> j == k;
      assert PairIds(m, d, u) == {k};
      Some(k)
    else
      assert PairIds(m, d, u) == {};
      None
  }

  /** Every request points at a known donation. */
  ghost predicate DonationsKnown(m: map<int, Request>, ds: map<int, Donation>)
  {
    forall k :: k in m ==> m[k].donationId in ds
  }

  // ----- specification of the service operations -----

  /** The outcome of `criar`: the request id or the failure, and the new request table. */
  datatype Created = Created(result: Result<int, Failure>, requests: map<int, Request>)

  /**
   * `criar` for donation `d` and requester `u`, where `newId` is the id the
   * database would assign to a new row.
   */
  function CreateSpec(m: map<int, Request>, d: int, u: int, newId: int, now: int): (o: Created)
    requires PairsUnique(m) && newId !in m
    ensures PairsUnique(o.requests)
    ensures o.result.Success? <==> PairIds(m, d, u) == {} || exists k :: k in PairIds(m, d, u) && m[k].status == Cancelada
    ensures o.result.Failure? ==> o.result.error == AlreadyRequested && o.requests == m
    ensures o.result.Success? ==> PairIds(o.requests, d, u) == {o.result.value}
    ensures o.result.Success? ==> o.requests[o.result.value].status == Solicitada
    ensures o.result.Success? ==> o.requests.Keys == m.Keys + {o.result.value}
    ensures forall k :: k in m && !(o.result.Success? && k == o.result.value) ==> o.requests[k] == m[k]
  {
    match FindByDonationAndRequester(m, d, u)
    case None =>
      var r := Stamped(NewRequest(d, u, now), Solicitada, now);
      var m' := m[newId := r];
      assert forall b :: b in m ==> !(m[b].donationId == d && m[b].requesterId == u) by {
        forall b | b in m ensures !(m[b].donationId == d && m[b].requesterId == u) {
          assert b !in PairIds(m, d, u);
        }
      }
      assert PairIds(m', d, u) == {newId};
      Created(Success(newId), m')
    case Some(k) =>
      if m[k].status == Cancelada then
        var m' := m[k := Stamped(m[k], Solicitada, now)];
        assert PairIds(m', d, u) == {k};
        Created(Success(k), m')
      else
        Created(Failure(AlreadyRequested), m)
  }

  /** A new request made by `criar` goes through `setStatus`, so it carries an update time at once. */
  lemma CreatedRequestIsStamped(m: map<int, Request>, d: int, u: int, newId: int, now: int)
    requires PairsUnique(m) && newId !in m && PairIds(m, d, u) == {}
    ensures var o := CreateSpec(m, d, u, newId, now);
      o.result == Success(newId) &&
      o.requests[newId] == Request(d, u, Solicitada, now, Some(now))
  {
  }

  /** The checks shared by `aceitar` and `recusar`, in their order. */
  function DonorCheck(m: map<int, Request>, ds: map<int, Donation>, id: int, actor: int): (f: Option<Failure>)
    requires DonationsKnown(m, ds)
    ensures f.None? <==> id in m && ds[m[id].donationId].donorId == Some(actor) && m[id].status == Solicitada
    ensures id !in m ==> f == Some(NotFound)
    ensures id in m && ds[m[id].donationId].donorId != Some(actor) ==> f == Some(NotDonor)
    ensures id in m && ds[m[id].donationId].donorId == Some(actor) && m[id].status != Solicitada ==> f == Some(NotPending)
  {
    if id !in m then Some(NotFound)
    else if ds[m[id].donationId].donorId.None? || ds[m[id].donationId].donorId.value != actor then Some(NotDonor)
    else if m[id].status != Solicitada then Some(NotPending)
    else None
  }

  /** The request table after `aceitar` of `id` succeeds. */
  function AcceptSpec(m: map<int, Request>, id: int, now: int): (m': map<int, Request>)
    requires id in m
    ensures m'.Keys == m.Keys
    ensures m'[id] == Stamped(m[id], EmAndamento, now)
    ensures forall k :: k in m && k != id && m[k].donationId == m[id].donationId && m[k].status == Solicitada ==>
      m'[k] == Stamped(m[k], Cancelada, now)
    ensures forall k :: k in m && k != id && m[k].donationId == m[id].donationId ==> m'[k].status != Solicitada
    ensures forall k :: k in m && k != id && m[k].status != Solicitada ==> m'[k] == m[k]
    ensures forall k :: k in m && m[k].donationId != m[id].donationId ==> m'[k] == m[k]
    ensures forall k :: k in m ==> m'[k].donationId == m[k].donationId && m'[k].requesterId == m[k].requesterId
  {
    map k | k in m ::
      if k == id then Stamped(m[k], EmAndamento, now)
      else if m[k].donationId == m[id].donationId && m[k].status == Solicitada then Stamped(m[k], Cancelada, now)
      else m[k]
  }

  /** Accepting keeps (donation, requester) pairs unique. */
  lemma AcceptKeepsPairsUnique(m: map<int, Request>, id: int, now: int)
    requires id in m && PairsUnique(m)
    ensures PairsUnique(AcceptSpec(m, id, now))
  {
  }

  /** The body of `aceitar`: the request goes in progress, then its pending siblings are cancelled one by one. */
  method CancelSiblings(m: map<int, Request>, id: int, now: int) returns (r: map<int, Request>)
    requires id in m
    ensures r == AcceptSpec(m, id, now)
  {
    var target := Stamped(m[id], EmAndamento, now);
    ghost var after := AcceptSpec(m, id, now);
    r := m[id := target];
    var siblings := ByDonation(r, target.donationId).Keys;
    while siblings != {}
      invariant siblings <= m.Keys
      invariant r.Keys == m.Keys
      invariant forall k :: k in r ==> r[k] == (if k in siblings then m[id := target][k] else after[k])
      decreases siblings
    {
      var k :| k in siblings;
      if k != id && r[k].status == Solicitada {
        r := r[k := Stamped(r[k], Cancelada, now)];
      }
      siblings := siblings - {k};
    }
  }

  /**
   * The service does not keep "at most one accepted request per donation": a
   * request cancelled by an acceptance can be revived by `criar` (the donation
   * is still active) and then accepted too, leaving two requests in progress.
   */
  lemma TwoRequestsInProgress()
    ensures var ds := map[7 := Donation(Some(5), true, None)];
      var m0 := map[1 := NewRequest(7, 10, 0), 2 := NewRequest(7, 11, 0)];
      var m1 := AcceptSpec(m0, 1, 1);
      var m2 := CreateSpec(m1, 7, 11, 3, 2).requests;
      var m3 := AcceptSpec(m2, 2, 3);
      PairsUnique(m0) && PairsUnique(m1) && DonationsKnown(m0, ds) && DonationsKnown(m2, ds) &&
      DonorCheck(m0, ds, 1, 5).None? && DonorCheck(m2, ds, 2, 5).None? && ds[7].active &&
      m3[1].donationId == m3[2].donationId && m3[1].status == EmAndamento && m3[2].status == EmAndamento
  {
    var ds := map[7 := Donation(Some(5), true, None)];
    var m0 := map[1 := NewRequest(7, 10, 0), 2 := NewRequest(7, 11, 0)];
    assert PairsUnique(m0);
    var m1 := AcceptSpec(m0, 1, 1);
    AcceptKeepsPairsUnique(m0, 1, 1);
    assert m1[2].status == Cancelada;
    assert 2 in PairIds(m1, 7, 11);
    var o := CreateSpec(m1, 7, 11, 3, 2);
    assert o.result == Success(2);
    var m3 := AcceptSpec(o.requests, 2, 3);
    assert m3[1] == o.requests[1] == m1[1];
  }

  /** The checks of `marcarColetada`, in their order. */
  function CollectCheck(m: map<int, Request>, ds: map<int, Donation>, id: int, actor: int): (f: Option<Failure>)
    requires DonationsKnown(m, ds)
    ensures f.None? <==> id in m && (ds[m[id].donationId].donorId == Some(actor) || m[id].requesterId == actor) && m[id].status == EmAndamento
    ensures id !in m ==> f == Some(NotFound)
    ensures id in m && ds[m[id].donationId].donorId != Some(actor) && m[id].requesterId != actor ==> f == Some(NotParty)
    ensures id in m && (ds[m[id].donationId].donorId == Some(actor) || m[id].requesterId == actor) && m[id].status != EmAndamento ==>
      f == Some(NotInProgress)
  {
    if id !in m then Some(NotFound)
    else if !(ds[m[id].donationId].donorId == Some(actor) || m[id].requesterId == actor) then Some(NotParty)
    else if m[id].status != EmAndamento then Some(NotInProgress)
    else None
  }

  // ----- the store -----

  /** The request and donation tables, as the service sees them through its repositories. */
  class RequestStore {
    var requests: map<int, Request>
    var donations: map<int, Donation>
    var nextId: int

    ghost predicate Valid()
      reads this
    {
      PairsUnique(requests) && DonationsKnown(requests, donations) &&
      forall k :: k in requests ==> k < nextId
    }

    constructor (donations: map<int, Donation>)
      ensures Valid() && requests == map[] && this.donations == donations
    {
      requests := map[];
      this.donations := donations;
      nextId := 1;
    }

    /** `criar`: insert a new pending request, revive a cancelled one, or refuse. */
    method Create(donationId: int, requesterId: int, now: int) returns (res: Result<int, Failure>)
      requires Valid() && donationId in donations
      modifies this
      ensures Valid() && donations == old(donations)
      ensures var o := CreateSpec(old(requests), donationId, requesterId, old(nextId), now);
        res == o.result && requests == o.requests
    {
      ghost var o := CreateSpec(requests, donationId, requesterId, nextId, now);
      match FindByDonationAndRequester(requests, donationId, requesterId)
      case Some(k) =>
        if requests[k].status == Cancelada {
          requests := requests[k := Stamped(requests[k], Solicitada, now)];
          res := Success(k);
        } else {
          res := Failure(AlreadyRequested);
        }
      case None =>
        var nova := new RequestRecord(donationId, requesterId, now);
        nova.SetStatus(Solicitada, now);
        requests := requests[nextId := nova.Value()];
        res := Success(nextId);
        nextId := nextId + 1;
    }

    /** `atualizarStatus`: overwrite the status of any existing request. */
    method UpdateStatus(id: int, s: Status, now: int) returns (res: Result<Request, Failure>)
      requires Valid()
      modifies this
      ensures Valid() && donations == old(donations) && nextId == old(nextId)
      ensures id !in old(requests) ==> res == Failure(NotFound) && requests == old(requests)
      ensures id in old(requests) ==>
        requests == old(requests)[id := Stamped(old(requests)[id], s, now)] && res == Success(requests[id])
    {
      if id !in requests {
        return Failure(NotFound);
      }
      requests := requests[id := Stamped(requests[id], s, now)];
      res := Success(requests[id]);
    }

    /** `cancelar`: set any existing request to `Cancelada`, whatever its status. */
    method Cancel(id: int, now: int) returns (err: Option<Failure>)
      requires Valid()
      modifies this
      ensures Valid() && donations == old(donations) && nextId == old(nextId)
      ensures id !in old(requests) ==> err == Some(NotFound) && requests == old(requests)
      ensures id in old(requests) ==>
        err == None && requests == old(requests)[id := Stamped(old(requests)[id], Cancelada, now)]
    {
      if id !in requests {
        return Some(NotFound);
      }
      requests := requests[id := Stamped(requests[id], Cancelada, now)];
      err := None;
    }

    /** `aceitar`: the donor accepts a pending request; its pending siblings are cancelled. */
    method Accept(id: int, actor: int, now: int) returns (res: Result<Request, Failure>)
      requires Valid()
      modifies this
      ensures Valid() && donations == old(donations) && nextId == old(nextId)
      ensures DonorCheck(old(requests), donations, id, actor).Some? ==>
        res == Failure(DonorCheck(old(requests), donations, id, actor).value) && requests == old(requests)
      ensures DonorCheck(old(requests), donations, id, actor).None? ==>
        requests == AcceptSpec(old(requests), id, now) && res == Success(requests[id])
    {
      var check := DonorCheck(requests, donations, id, actor);
      if check.Some? {
        return Failure(check.value);
      }
      ghost var before := requests;
      requests := CancelSiblings(requests, id, now);
      AcceptKeepsPairsUnique(before, id, now);
      assert forall k :: k in requests ==> requests[k].donationId == before[k].donationId;
      res := Success(requests[id]);
    }

    /** `recusar`: the donor turns down a pending request; nothing else changes. */
    method Reject(id: int, actor: int, now: int) returns (res: Result<Request, Failure>)
      requires Valid()
      modifies this
      ensures Valid() && donations == old(donations) && nextId == old(nextId)
      ensures DonorCheck(old(requests), donations, id, actor).Some? ==>
        res == Failure(DonorCheck(old(requests), donations, id, actor).value) && requests == old(requests)
      ensures DonorCheck(old(requests), donations, id, actor).None? ==>
        requests == old(requests)[id := Stamped(old(requests)[id], Cancelada, now)] && res == Success(requests[id])
    {
      var check := DonorCheck(requests, donations, id, actor);
      if check.Some? {
        return Failure(check.value);
      }
      requests := requests[id := Stamped(requests[id], Cancelada, now)];
      res := Success(requests[id]);
    }

    /** `marcarColetada`: a party closes an accepted request, and the donation is retired. */
    method MarkCollected(id: int, actor: int, now: int) returns (res: Result<Request, Failure>)
      requires Valid()
      modifies this
      ensures Valid() && nextId == old(nextId)
      ensures CollectCheck(old(requests), old(donations), id, actor).Some? ==>
        res == Failure(CollectCheck(old(requests), old(donations), id, actor).value) &&
        requests == old(requests) && donations == old(donations)
      ensures CollectCheck(old(requests), old(donations), id, actor).None? ==>
        var d := old(requests)[id].donationId;
        requests == old(requests)[id := Stamped(old(requests)[id], Concluida, now)] &&
        donations == old(donations)[d := old(donations)[d].(active := false)] &&
        res == Success(requests[id])
    {
      var check := CollectCheck(requests, donations, id, actor);
      if check.Some? {
        return Failure(check.value);
      }
      requests := requests[id := Stamped(requests[id], Concluida, now)];
      var d := requests[id].donationId;
      donations := donations[d := donations[d].(active := false)];
      res := Success(requests[id]);
    }
  }
}
