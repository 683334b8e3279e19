/**
 * The notification badge of the navigation bar: how many pending requests the
 * user has, found by trying the request endpoints in turn and otherwise by
 * summing over the user's donations, and how that count is drawn on the
 * badge and in the dropdown menu.
 */
module Badge {
  import opened Common
  import opened Text
  import opened RequestStatus

  /** One fetch whose body should be a list: an ok list, an ok body that is not a list (filtering it throws), or a failure. */
  datatype Fetch<T> = OkList(items: seq<T>) | OkOther | Failed

  /** A request as the badge reads it: only its status text, if any. */
  datatype Item = Item(status: Option<string>)

  /** The badge's pending test: the lower-cased status is `pendente`, `pending` or `aguardando`. */
  predicate IsPending(x: Item)
    ensures IsPending(x) <==> x.status.Some? && exists w :: w in PendingWords && EqualsIgnoreCase(x.status.value, w)
  {
    match x.status
    case None => false
    case Some(s) =>
      PendingIgnoresCase(s);
      Lower(s) in {"pendente", "pending", "aguardando"}
  }

  const PendingWords: seq<string> := ["pendente", "pending", "aguardando"]

  /** Lower-casing and comparing is comparing ignoring case, for words already in lower case. */
  lemma PendingIgnoresCase(s: string)
    ensures Lower(s) in {"pendente", "pending", "aguardando"} <==> exists w :: w in PendingWords && EqualsIgnoreCase(s, w)
  {
    forall w | w in PendingWords
      ensures Lower(s) == w <==> EqualsIgnoreCase(s, w)
    {
      assert forall i :: 0 <= i < |w| ==> LowerChar(w[i]) == w[i];
      if EqualsIgnoreCase(s, w) {
        assert Lower(s) == w;
      }
    }
    if Lower(s) in {"pendente", "pending", "aguardando"} {
      assert Lower(s) in PendingWords && EqualsIgnoreCase(s, Lower(s));
    }
  }

  /** None of the statuses the server sends passes that test, so the count is always 0 against this server. */
  lemma NoWireStatusIsPending(s: Status)
    ensures !IsPending(Item(Some(Valor(s))))
  {
    var l := Lower(Valor(s));
    assert |l| == |Valor(s)|;
    if |l| == 10 {
      assert l[0] == LowerChar(Valor(s)[0]);
      assert l[0] != "aguardando"[0];
    }
  }

  function PendingOf(items: seq<Item>): (n: nat)
    ensures n <= |items|
  {
    Count(items, IsPending)
  }

  const Endpoints: seq<string> :=
    ["/doacoes/minhas-solicitacoes", "/doacoes/solicitacoes", "/solicitacoes/minhas", "/api/solicitacoes"]

  /** The first endpoint answering an ok list decides the count. */
  function FromEndpoints(eps: seq<string>, respond: string -> Fetch<Item>): (n: Option<nat>)
    ensures n.None? <==> forall i :: 0 <= i < |eps| ==> !respond(eps[i]).OkList?
  {
    if eps == [] then None
    else if respond(eps[0]).OkList? then Some(PendingOf(respond(eps[0]).items))
    else
      var rest := FromEndpoints(eps[1..], respond);
      assert forall i :: 1 <= i < |eps| ==> eps[i] == eps[1..][i - 1];
      rest
  }

  /** The pending requests summed over the donations whose request list could be fetched. */
  function SumOverDonations(ids: seq<int>, perDonation: int -> Fetch<Item>): nat {
    if ids == [] then 0
    else (if perDonation(ids[0]).OkList? then PendingOf(perDonation(ids[0]).items) else 0)
         + SumOverDonations(ids[1..], perDonation)
  }

  /** Every donation whose list was fetched adds its whole count to the sum, and the sum is 0 when no list could be fetched. */
  lemma {:induction false} SumCoversFetched(ids: seq<int>, perDonation: int -> Fetch<Item>)
    ensures forall i :: 0 <= i < |ids| && perDonation(ids[i]).OkList? ==>
      PendingOf(perDonation(ids[i]).items) <= SumOverDonations(ids, perDonation)
    ensures (forall i :: 0 <= i < |ids| ==> !perDonation(ids[i]).OkList?) ==> SumOverDonations(ids, perDonation) == 0
  {
    if ids != [] {
      SumCoversFetched(ids[1..], perDonation);
      assert forall i :: 1 <= i < |ids| ==> ids[i] == ids[1..][i - 1];
    }
  }

  /**
   * `getPendingFromDonations`: 0 when the donation list cannot be had;
   * otherwise, donation by donation, adds the pending requests of each whose
   * list was fetched and skips the others.
   */
  method PendingFromDonations(donations: Fetch<int>, perDonation: int -> Fetch<Item>) returns (total: nat)
    ensures donations.OkList? ==> total == SumOverDonations(donations.items, perDonation)
    ensures !donations.OkList? ==> total == 0
  {
    if !donations.OkList? {
      return 0;
    }
    var ids := donations.items;
    total := 0;
    var i := 0;
    while i < |ids|
      invariant 0 <= i <= |ids|
      invariant total + SumOverDonations(ids[i..], perDonation) == SumOverDonations(ids, perDonation)
    {
      assert ids[i..][1..] == ids[i + 1..];
      var f := perDonation(ids[i]);
      if f.OkList? {
        total := total + PendingOf(f.items);
      }
      i := i + 1;
    }
    assert ids[i..] == [];
  }

  /** `getPendingRequestsCount` with a token: the endpoints first, the per-donation sum when none answers. */
  method PendingCount(respond: string -> Fetch<Item>, donations: Fetch<int>, perDonation: int -> Fetch<Item>)
    returns (n: nat)
    ensures FromEndpoints(Endpoints, respond).Some? ==> n == FromEndpoints(Endpoints, respond).value
    ensures FromEndpoints(Endpoints, respond).None? && donations.OkList? ==>
      n == SumOverDonations(donations.items, perDonation)
    ensures FromEndpoints(Endpoints, respond).None? && !donations.OkList? ==> n == 0
  {
    var i := 0;
    while i < |Endpoints|
      invariant 0 <= i <= |Endpoints|
      invariant FromEndpoints(Endpoints, respond) == FromEndpoints(Endpoints[i..], respond)
    {
      assert Endpoints[i..][1..] == Endpoints[i + 1..];
      var f := respond(Endpoints[i]);
      if f.OkList? {
        return PendingOf(f.items);
      }
      i := i + 1;
    }
    n := PendingFromDonations(donations, perDonation);
  }

  /** The list a fetch yields; nothing when it failed. */
  function Listed(f: Fetch<Item>): (r: seq<Item>)
    ensures f.OkList? ==> r == f.items
  {
    if f.OkList? then f.items else []
  }

  /** A request whose status is one of the four wire values. */
  ghost predicate SentByServer(x: Item) {
    exists s :: x == Item(Some(Valor(s)))
  }

  /** Against this server the per-donation sum is always 0, whatever the lists hold. */
  lemma {:induction false} SumIsZeroForWireStatuses(ids: seq<int>, perDonation: int -> Fetch<Item>)
    requires forall id, x :: x in Listed(perDonation(id)) ==> SentByServer(x)
    ensures SumOverDonations(ids, perDonation) == 0
  {
    if ids != [] {
      var f := perDonation(ids[0]);
      if f.OkList? {
        forall x | x in f.items ensures !IsPending(x) {
          assert forall id, y :: y in Listed(perDonation(id)) ==> SentByServer(y);
          assert SentByServer(x);
          var s :| x == Item(Some(Valor(s)));
          NoWireStatusIsPending(s);
        }
        NoneCounted(f.items);
      }
      SumIsZeroForWireStatuses(ids[1..], perDonation);
    }
  }

  lemma {:induction false} NoneCounted(items: seq<Item>)
    requires forall x :: x in items ==> !IsPending(x)
    ensures PendingOf(items) == 0
  {
    if items != [] {
      assert forall x :: x in items[1..] ==> x in items;
      NoneCounted(items[1..]);
    }
  }

  /** `showBadge`: hidden for a count of 0 or less, `99+` above 99, else the count in decimal. */
  function BadgeText(count: int): (t: Option<string>)
    ensures t.None? <==> count <= 0
    ensures count > 99 ==> t == Some("99+")
    ensures 0 < count <= 99 ==> t == Some(IntToString(count))
    ensures t.Some? ==> 1 <= |t.value| <= 3
  {
    if count <= 0 then None
    else if count > 99 then Some("99+")
    else
      TwoDigits(count);
      Some(IntToString(count))
  }

  /** A number below 100 prints with at most two digits. */
  lemma TwoDigits(n: nat)
    requires n < 100
    ensures |IntToString(n)| <= 2
  {
    if n >= 10 {
      assert NatToString(n) == NatToString(n / 10) + [DigitChar(n % 10)];
    }
  }

  /** The dropdown status: hidden for 0 or less, else `1 pendente` or `N pendentes`. */
  function DropdownText(count: int): (t: Option<string>)
    ensures t.None? <==> count <= 0
    ensures count == 1 ==> t == Some("1 pendente")
    ensures count > 1 ==> t == Some(IntToString(count) + " pendentes")
  {
    if count <= 0 then None
    else
      assert IntToString(1) + " " + "pendente" == "1 pendente";
      assert IntToString(count) + " " + "pendentes" == IntToString(count) + " pendentes";
      Some(IntToString(count) + " " + (if count == 1 then "pendente" else "pendentes"))
  }

  /** `updateBadge`: without a token the badge is hidden and the dropdown shows the state for 0. */
  function UpdateBadge(hasToken: bool, count: nat): (shown: (Option<string>, Option<string>))
    ensures !hasToken ==> shown == (None, None)
    ensures hasToken ==> shown == (BadgeText(count), DropdownText(count))
    ensures shown.0.None? <==> shown.1.None?
  {
    if !hasToken then (BadgeText(0), DropdownText(0))
    else (BadgeText(count), DropdownText(count))
  }
}
