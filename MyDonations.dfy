/**
 * The donor's "my donations" page: the filter tabs, the validity badge of a
 * card, what a card shows once one of its requests is concluded, the
 * conclusion date and the summary counters. Dates are integer days; a value
 * the page may receive without a field is an `Option`.
 */
module MyDonations {
  import opened Common

  /** A donation as listed: `ativo` may be missing, and so may the validity day and the quantity. */
  datatype Listed = Listed(id: int, active: Option<bool>, expiry: Option<int>, quantity: Option<real>)

  /** A request of a donation as the page receives it: the wire status and the last update. */
  datatype Req = Req(status: string, updatedAt: Option<int>)

  /** Days from today to the validity day. */
  function DaysLeft(expiry: int, today: int): int { expiry - today }

  /** Whether a donation stays under a filter tab; an unknown tab keeps everything. */
  predicate Keep(filter: string, today: int, d: Listed) {
    if filter == "ativas" then d.active == Some(true)
    else if filter == "inativas" then d.active == Some(false)
    else if filter == "vencidas" then d.expiry.Some? && DaysLeft(d.expiry.value, today) < 0
    else if filter == "urgentes" then d.expiry.Some? && 0 <= DaysLeft(d.expiry.value, today) <= 3
    else true
  }

  /** `getFilteredDonations`: the list itself for `todas`, else the donations the tab keeps, in order. */
  function FilteredDonations(ds: seq<Listed>, filter: string, today: int): (r: seq<Listed>)
    ensures filter == "todas" ==> r == ds
    ensures forall d :: d in r <==> d in ds && Keep(filter, today, d)
    ensures filter != "todas" ==> r == Filter(ds, d => Keep(filter, today, d))
  {
    if filter == "todas" then ds
    else
      var r := Filter(ds, d => Keep(filter, today, d));
      forall d | d in ds && Keep(filter, today, d) ensures d in r {
        FilterKeeps(ds, d => Keep(filter, today, d), d);
      }
      r
  }

  /** An unknown tab shows every donation, in the same order. */
  lemma UnknownFilterKeepsAll(ds: seq<Listed>, filter: string, today: int)
    requires filter !in {"todas", "ativas", "inativas", "vencidas", "urgentes"}
    ensures FilteredDonations(ds, filter, today) == ds
  {
    FilterAll(ds, d => Keep(filter, today, d));
  }

  /** No donation is both expired and urgent, nor both active and inactive. */
  lemma TabsDisjoint(d: Listed, today: int)
    ensures !(Keep("vencidas", today, d) && Keep("urgentes", today, d))
    ensures !(Keep("ativas", today, d) && Keep("inativas", today, d))
  {
  }

  /** Filtering keeps the order: the tab applied to two lists joined is the tab applied to each, joined. */
  lemma FilterSplits(a: seq<Listed>, b: seq<Listed>, filter: string, today: int)
    ensures FilteredDonations(a + b, filter, today) == FilteredDonations(a, filter, today) + FilteredDonations(b, filter, today)
  {
    if filter != "todas" {
      FilterAppend(a, b, d => Keep(filter, today, d));
    }
  }

  datatype Badge = Expired | Urgent | Available

  /** The validity badge of a card: expired below 0 days, urgent up to 3, available otherwise or without a date. */
  function CardBadge(expiry: Option<int>, today: int): (b: Badge)
    ensures b == Expired <==> expiry.Some? && expiry.value < today
    ensures b == Urgent <==> expiry.Some? && today <= expiry.value <= today + 3
  {
    if expiry.None? then Available
    else if DaysLeft(expiry.value, today) < 0 then Expired
    else if DaysLeft(expiry.value, today) <= 3 then Urgent
    else Available
  }

  /** A donation is under the `vencidas` tab exactly when its badge is expired, and under `urgentes` exactly when it is urgent. */
  lemma TabsAgreeWithBadge(d: Listed, today: int)
    ensures Keep("vencidas", today, d) <==> CardBadge(d.expiry, today) == Expired
    ensures Keep("urgentes", today, d) <==> CardBadge(d.expiry, today) == Urgent
  {
  }

  /** What a card shows: its state badges and whether it offers editing, deleting and the request list. */
  datatype CardView = CardView(badges: seq<string>, editable: bool)

  /** A concluded request turns the card into `Inativa` plus `Concluída` without actions, whatever `ativo` says. */
  function Card(d: Listed, requests: seq<Req>): (v: CardView)
    ensures (exists r :: r in requests && r.status == "concluida") ==> v == CardView(["Inativa", "Concluída"], false)
    ensures (forall r :: r in requests ==> r.status != "concluida") ==>
      v.editable && v.badges == [if d.active == Some(true) then "Ativa" else "Inativa"]
  {
    var completed := Filter(requests, (r: Req) => r.status == "concluida");
    if |completed| > 0 then
      assert completed[0] in completed;
      CardView(["Inativa", "Concluída"], false)
    else
      forall r | r in requests ensures r.status != "concluida" {
        if r.status == "concluida" {
          FilterKeeps(requests, (r: Req) => r.status == "concluida", r);
        }
      }
      CardView([if d.active == Some(true) then "Ativa" else "Inativa"], true)
  }

  /** A concluded request that carries an update time. */
  predicate Dated(r: Req) { r.status == "concluida" && r.updatedAt.Some? }

  /**
   * `dataConclusao`: the most recent update time among the concluded requests
   * that have one (the head of those sorted newest first); none without such a request.
   */
  function Conclusion(requests: seq<Req>): (t: Option<int>)
    ensures t.None? <==> forall r :: r in requests ==> !Dated(r)
    ensures t.Some? ==> exists r :: r in requests && Dated(r) && r.updatedAt.value == t.value
    ensures t.Some? ==> forall r :: r in requests && Dated(r) ==> r.updatedAt.value <= t.value
  {
    if requests == [] then None
    else
      var rest := Conclusion(requests[1..]);
      var h := requests[0];
      assert forall r :: r in requests <==> r == h || r in requests[1..];
      if !Dated(h) then rest
      else if rest.None? || rest.value < h.updatedAt.value then Some(h.updatedAt.value)
      else rest
  }

  /** The counters: all donations, those with `ativo` true, and the sum of the quantities (a missing one counts 0). */
  datatype Stats = Stats(total: nat, active: nat, quantity: real)

  function QuantitySum(ds: seq<Listed>): real {
    if ds == [] then 0.0 else ds[0].quantity.GetOr(0.0) + QuantitySum(ds[1..])
  }

  function CalculateStats(ds: seq<Listed>): (s: Stats)
    ensures s.total == |ds| && s.active <= s.total
    ensures s.active == |FilteredDonations(ds, "ativas", 0)|
  {
    FilterAgree(ds, d => Keep("ativas", 0, d), (d: Listed) => d.active == Some(true));
    Stats(|ds|, Count(ds, (d: Listed) => d.active == Some(true)), QuantitySum(ds))
  }

  /** With no negative quantity the total quantity is never negative. */
  lemma {:induction false} QuantityNonNegative(ds: seq<Listed>)
    requires forall d :: d in ds ==> d.quantity.GetOr(0.0) >= 0.0
    ensures CalculateStats(ds).quantity >= 0.0
  {
    if ds != [] {
      assert forall d :: d in ds[1..] ==> d in ds;
      QuantityNonNegative(ds[1..]);
    }
  }
}
