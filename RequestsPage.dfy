/**
 * The requester's "my requests" page, present in two copies of the front end
 * with the same logic: loading the list by trying several endpoints in turn,
 * the status tabs, the counters, the status label, the actions of a card and
 * the link to the chat with the donor. A request status is the wire string,
 * missing when the server sent none.
 */
module RequestsPage {
  import opened Common
  import opened Text

  datatype Item = Item(id: int, status: Option<string>, donorId: Option<int>)

  /** What the response body parsed to: an array, an object that may hold `solicitacoes`, or anything else. */
  datatype Body = Array(items: seq<Item>) | Object(solicitacoes: Option<seq<Item>>) | OtherJson

  /** The outcome of one fetch: an ok response with its body, a non-ok status, or a thrown error. */
  datatype Response = Ok(body: Body) | NotOk(code: int) | Thrown

  /** What the page ends up with: a list to show, or the "log in again" state. */
  datatype Load = Loaded(items: seq<Item>) | AuthRequired

  const Endpoints: seq<string> :=
    ["/doacoes/minhas-solicitacoes", "/doacoes/solicitacoes", "/solicitacoes/minhas", "/api/solicitacoes"]

  /** The list an ok body yields, if it yields one. */
  function Listed(b: Body): (r: Option<seq<Item>>)
    ensures b.Array? ==> r == Some(b.items)
    ensures b.OtherJson? ==> r.None?
  {
    match b
    case Array(items) => Some(items)
    case Object(s) => s
    case OtherJson => None
  }

  /** The reference answer of the fallback: the first endpoint decides if it lists or answers 401; else the next one. */
  function Fallback(eps: seq<string>, respond: string -> Response): (l: Load)
    ensures l.AuthRequired? ==> exists i :: 0 <= i < |eps| && respond(eps[i]) == NotOk(401)
    ensures l.Loaded? && l.items != [] ==>
      exists i :: 0 <= i < |eps| && respond(eps[i]).Ok? && Listed(respond(eps[i]).body) == Some(l.items)
  {
    if eps == [] then Loaded([])
    else
      var rest := Fallback(eps[1..], respond);
      assert forall i :: 0 <= i < |eps| - 1 ==> eps[1..][i] == eps[i + 1];
      match respond(eps[0])
      case Ok(b) => if Listed(b).Some? then Loaded(Listed(b).value) else rest
      case NotOk(code) => if code == 401 then AuthRequired else rest
      case Thrown => rest
  }

  /**
   * `loadMyRequests` after the token check: tries each endpoint in order; the
   * first ok response carrying a list wins, a 401 stops the search, and when no
   * endpoint yields a list the page shows an empty one.
   */
  method LoadRequests(respond: string -> Response) returns (l: Load)
    ensures l == Fallback(Endpoints, respond)
  {
    var i := 0;
    while i < |Endpoints|
      invariant 0 <= i <= |Endpoints|
      invariant Fallback(Endpoints, respond) == Fallback(Endpoints[i..], respond)
    {
      assert Endpoints[i..][1..] == Endpoints[i + 1..];
      match respond(Endpoints[i]) {
        case Ok(b) =>
          var items := Listed(b);
          if items.Some? {
            return Loaded(items.value);
          }
        case NotOk(code) =>
          if code == 401 {
            return AuthRequired;
          }
        case Thrown =>
      }
      i := i + 1;
    }
    return Loaded([]);
  }

  /** A response that ends the search: an ok body holding a list, or a 401. */
  predicate Decides(r: Response) {
    (r.Ok? && Listed(r.body).Some?) || r == NotOk(401)
  }

  /** When no endpoint yields a list or a 401, the page shows an empty list. */
  lemma {:induction false} NoneDecidesMeansEmpty(eps: seq<string>, respond: string -> Response)
    requires forall i :: 0 <= i < |eps| ==> !Decides(respond(eps[i]))
    ensures Fallback(eps, respond) == Loaded([])
  {
    if eps != [] {
      NoneDecidesMeansEmpty(eps[1..], respond);
    }
  }

  /** The first endpoint that decides is the one whose answer the page keeps. */
  lemma {:induction false} FirstDecidingWins(eps: seq<string>, respond: string -> Response, k: nat)
    requires k < |eps| && Decides(respond(eps[k]))
    requires forall i :: 0 <= i < k ==> !Decides(respond(eps[i]))
    ensures respond(eps[k]) == NotOk(401) ==> Fallback(eps, respond) == AuthRequired
    ensures respond(eps[k]).Ok? ==> Fallback(eps, respond) == Loaded(Listed(respond(eps[k]).body).value)
  {
    if k > 0 {
      FirstDecidingWins(eps[1..], respond, k - 1);
    }
  }

  /** `getFilteredRequests`: everything for `todas`, else the requests whose status is exactly the tab. */
  function FilteredRequests(rs: seq<Item>, filter: string): (r: seq<Item>)
    ensures filter == "todas" ==> r == rs
    ensures filter != "todas" ==> forall x :: x in r <==> x in rs && x.status == Some(filter)
    ensures |r| <= |rs|
  {
    if filter == "todas" then rs
    else
      var r := Filter(rs, (x: Item) => x.status == Some(filter));
      forall x | x in rs && x.status == Some(filter) ensures x in r {
        FilterKeeps(rs, (x: Item) => x.status == Some(filter), x);
      }
      r
  }

  /** The status a card is drawn with: a missing or empty status reads as `solicitada` (the newer copy). */
  function CardStatus(s: Option<string>): (r: string)
    ensures r != ""
    ensures s.Some? && s.value != "" ==> r == s.value
  {
    if s.Some? && s.value != "" then s.value else "solicitada"
  }

  /** A request without a status is drawn as `solicitada` but is not under the `solicitada` tab. */
  lemma MissingStatusNotInItsTab(x: Item)
    requires x.status.None?
    ensures CardStatus(x.status) == "solicitada"
    ensures x !in FilteredRequests([x], "solicitada")
  {
  }

  /** The badge text: the known label, `Solicitada` for any other status. */
  function StatusLabel(status: Option<string>): (l: string)
    ensures status !in {Some("solicitada"), Some("em_andamento"), Some("concluida"), Some("cancelada")} ==> l == "Solicitada"
    ensures status == Some("cancelada") ==> l == "Cancelada"
  {
    if status == Some("em_andamento") then "Em Andamento"
    else if status == Some("concluida") then "Concluída"
    else if status == Some("cancelada") then "Cancelada"
    else "Solicitada"
  }

  datatype Action = OpenChat | ConfirmCollection | CancelRequest | ViewDonation

  /** The buttons of a card: chat, collect and cancel while in progress; cancel while requested; always view. */
  function Actions(status: Option<string>): (a: seq<Action>)
    ensures |a| >= 1 && a[|a| - 1] == ViewDonation
    ensures CancelRequest in a <==> status in {Some("em_andamento"), Some("solicitada")}
    ensures OpenChat in a <==> status == Some("em_andamento")
    ensures ConfirmCollection in a <==> status == Some("em_andamento")
  {
    if status == Some("em_andamento") then [OpenChat, ConfirmCollection, CancelRequest, ViewDonation]
    else if status == Some("solicitada") then [CancelRequest, ViewDonation]
    else [ViewDonation]
  }

  /** The newer copy offers cancelling a request that came without a status; the older copy, which does not default it, does not. */
  lemma CopiesDifferOnMissingStatus()
    ensures CancelRequest in Actions(Some(CardStatus(None)))
    ensures CancelRequest !in Actions(None)
  {
  }

  /** The counters: all requests, those pending (requested or in progress), and those concluded. */
  datatype Stats = Stats(total: nat, pending: nat, approved: nat)

  function CalculateStats(rs: seq<Item>): (s: Stats)
    ensures s.total == |rs|
    ensures s.pending == |FilteredRequests(rs, "solicitada")| + |FilteredRequests(rs, "em_andamento")|
    ensures s.approved == |FilteredRequests(rs, "concluida")|
  {
    Stats(|rs|,
          Count(rs, (x: Item) => x.status == Some("solicitada")) + Count(rs, (x: Item) => x.status == Some("em_andamento")),
          Count(rs, (x: Item) => x.status == Some("concluida")))
  }

  /** Pending and approved never add up to more than the total. */
  lemma {:induction false} StatsBounded(rs: seq<Item>)
    ensures CalculateStats(rs).pending + CalculateStats(rs).approved <= CalculateStats(rs).total
  {
    if rs != [] {
      StatsBounded(rs[1..]);
    }
  }

  /** `openChat`: navigates to the chat with the donor, unless the donor id is missing (or 0, which is falsy). */
  function ChatLink(donorId: Option<int>, requestId: int): (url: Option<string>)
    ensures url.Some? <==> donorId.Some? && donorId.value != 0
    ensures url.Some? ==> StartsWith(url.value, "chat.html?userId=")
  {
    if donorId.None? || donorId.value == 0 then None
    else Some("chat.html?userId=" + IntToString(donorId.value) + "&requestId=" + IntToString(requestId))
  }
}
