/**
 * The profile page: the status a donation shows from its requests, the status
 * and user-type labels, the avatar's initials and URL, the location line and
 * the star rows of the latest ratings. A JavaScript value that may be missing
 * is an `Option`; the empty string counts as missing wherever the page tests
 * a value for truth.
 */
module ProfilePage {
  import opened Common
  import opened Text

  datatype DonationStatus = Delivered | InProgress | Pending | Cancelled | Available

  /** A donation as the page receives it: `ativo` and the wire statuses of its requests, if sent. */
  datatype ProfileDonation = ProfileDonation(active: bool, requests: Option<seq<string>>)

  /**
   * `getDonationStatus`, by the page's priority: inactive with a concluded
   * request, then any request in progress, then any pending one, then inactive,
   * else available. A missing request list is an empty one.
   */
  function GetDonationStatus(d: ProfileDonation): (s: DonationStatus)
    ensures var rs := d.requests.GetOr([]);
      (s == Delivered <==> !d.active && "concluida" in rs) &&
      (s == InProgress <==> !(!d.active && "concluida" in rs) && "em_andamento" in rs) &&
      (s == Pending <==> !(!d.active && "concluida" in rs) && "em_andamento" !in rs && "solicitada" in rs) &&
      (s == Cancelled <==> !d.active && "concluida" !in rs && "em_andamento" !in rs && "solicitada" !in rs) &&
      (s == Available <==> d.active && "em_andamento" !in rs && "solicitada" !in rs)
  {
    var rs := d.requests.GetOr([]);
    CountPositiveIffIn(rs, "concluida");
    CountPositiveIffIn(rs, "em_andamento");
    CountPositiveIffIn(rs, "solicitada");
    if !d.active && Count(rs, r => r == "concluida") > 0 then Delivered
    else if Count(rs, r => r == "em_andamento") > 0 then InProgress
    else if Count(rs, r => r == "solicitada") > 0 then Pending
    else if !d.active then Cancelled
    else Available
  }

  /** A filter for one value is non-empty exactly when the value occurs. */
  lemma {:induction false} CountPositiveIffIn(rs: seq<string>, v: string)
    ensures Count(rs, r => r == v) > 0 <==> v in rs
  {
    if rs != [] {
      CountPositiveIffIn(rs[1..], v);
      assert rs == [rs[0]] + rs[1..];
    }
  }

  /** `getDonationStatusLabel`. */
  function StatusLabel(s: DonationStatus): (l: string)
    ensures l != ""
    ensures l == "Disponível" <==> s == Available
  {
    match s
    case Delivered => "✓ Concluída"
    case InProgress => "Em Andamento"
    case Pending => "Aguardando"
    case Available => "Disponível"
    case Cancelled => "Inativa"
  }

  /** Each status has its own label, so the label shows the status. */
  lemma StatusLabelInjective(s: DonationStatus, t: DonationStatus)
    requires StatusLabel(s) == StatusLabel(t)
    ensures s == t
  {
  }

  /** `getUserTypeLabel`: four known types, `Usuário` for anything else. */
  function UserTypeLabel(t: Option<string>): (l: string)
    ensures t.None? || t.value !in {"INDIVIDUAL", "ESTABELECIMENTO", "ONG", "RECEPTOR"} ==> l == "Usuário"
    ensures t == Some("ONG") ==> l == "ONG"
    ensures t.Some? && t.value in {"INDIVIDUAL", "ESTABELECIMENTO", "ONG", "RECEPTOR"} ==> l != "Usuário"
  {
    if t == Some("INDIVIDUAL") then "Pessoa Física"
    else if t == Some("ESTABELECIMENTO") then "Estabelecimento"
    else if t == Some("ONG") then "ONG"
    else if t == Some("RECEPTOR") then "Receptor"
    else "Usuário"
  }

  // ----- avatar -----

  /** The non-empty words, in their order. */
  function Words(words: seq<string>): seq<string> {
    Filter(words, (w: string) => w != [])
  }

  /** The first character of every word, in order; an empty word contributes nothing. */
  function FirstChars(words: seq<string>): (r: string)
    ensures |r| == |Words(words)|
    ensures forall i :: 0 <= i < |r| ==> Words(words)[i] != [] && r[i] == Words(words)[i][0]
  {
    if words == [] then []
    else
      var rest := FirstChars(words[1..]);
      assert Words(words) == (if words[0] != [] then [words[0]] else []) + Words(words[1..]);
      (if words[0] != [] then [words[0][0]] else []) + rest
  }

  /** The placeholder's initials: the upper-cased first letters of the name's words, at most two; `U` without a name. */
  function Initials(name: Option<string>): (r: string)
    ensures |r| <= 2
    ensures name.None? || name.value == "" ==> r == "U"
    ensures name.Some? && name.value != "" ==>
      var ws := Words(Split(name.value, ' '));
      |r| == (if |ws| < 2 then |ws| else 2) &&
      forall i :: 0 <= i < |r| ==> ws[i] != [] && r[i] == UpperChar(ws[i][0])
  {
    if name.None? || name.value == "" then "U"
    else
      var letters := Upper(FirstChars(Split(name.value, ' ')));
      if |letters| > 2 then letters[..2] else letters
  }

  lemma SplitTwoWords()
    ensures Split("ana souza", ' ') == ["ana", "souza"]
  {
    assert LastIndexOf("ana souza", ' ') == Some(3);
    assert LastIndexOf("ana", ' ') == None;
    assert "ana souza"[..3] == "ana" && "ana souza"[4..] == "souza";
  }

  lemma InitialsOfTwoWords()
    ensures Initials(Some("ana souza")) == "AS"
  {
    var ws := ["ana", "souza"];
    SplitTwoWords();
    FilterAll(ws, (w: string) => w != []);
    var r := Initials(Some("ana souza"));
    assert |r| == 2 && r[0] == UpperChar('a') && r[1] == UpperChar('s');
  }

  /** A relative avatar URL is joined to the API base with exactly one `/` between. */
  function ResolveAvatar(url: string, base: string): (r: string)
    ensures StartsWith(url, "http") ==> r == url
    ensures !StartsWith(url, "http") && StartsWith(url, "/") ==> r == base + url
    ensures !StartsWith(url, "http") && !StartsWith(url, "/") ==> r == base + "/" + url
  {
    if StartsWith(url, "http") then url
    else base + (if StartsWith(url, "/") then "" else "/") + url
  }

  /** The cache buster: joined with `&` when the URL already has a query, else with `?`. */
  function WithVersion(url: string, version: string): (r: string)
    ensures StartsWith(r, url)
    ensures '?' in url ==> r == url + "&v=" + version
    ensures '?' !in url ==> r == url + "?v=" + version
  {
    assert forall t :: (url + t)[..|url|] == url;
    url + (if '?' in url then "&" else "?") + "v=" + version
  }

  /** A resolved relative URL has the base, then one slash, then the path without its leading slash. */
  lemma ResolveAvatarOneSlash(url: string, base: string)
    requires !StartsWith(url, "http") && url != []
    ensures ResolveAvatar(url, base) == base + "/" + (if url[0] == '/' then url[1..] else url)
  {
    if url[0] == '/' {
      assert url == "/" + url[1..];
    }
  }

  // ----- location -----

  predicate Truthy(s: Option<string>) { s.Some? && s.value != "" }

  /** The location line: `cidade - estado`, else whichever is present, else `Não informado`. */
  function Location(city: Option<string>, state: Option<string>): (r: string)
    ensures Truthy(city) && Truthy(state) ==> r == city.value + " - " + state.value
    ensures Truthy(city) && !Truthy(state) ==> r == city.value
    ensures !Truthy(city) && Truthy(state) ==> r == state.value
    ensures !Truthy(city) && !Truthy(state) ==> r == "Não informado"
  {
    if Truthy(city) && Truthy(state) then city.value + " - " + state.value
    else if Truthy(city) then city.value
    else if Truthy(state) then state.value
    else "Não informado"
  }

  // ----- ratings -----

  /** The star row of a rating: star `i` (0..4) is filled iff `i < nota`. */
  function StarRow(score: int): (row: seq<bool>)
    ensures |row| == 5
    ensures forall i :: 0 <= i < 5 ==> row[i] == (i < score)
  {
    seq(5, i => i < score)
  }

  function Filled(row: seq<bool>): nat {
    if row == [] then 0 else (if row[0] then 1 else 0) + Filled(row[1..])
  }

  /** The number of filled stars is the score clamped to 0..5. */
  lemma FilledStars(score: int)
    ensures Filled(StarRow(score)) == if score < 0 then 0 else if score > 5 then 5 else score
  {
    var row := StarRow(score);
    assert row == [0 < score, 1 < score, 2 < score, 3 < score, 4 < score];
    assert row[1..] == [1 < score, 2 < score, 3 < score, 4 < score];
    assert row[1..][1..] == [2 < score, 3 < score, 4 < score];
    assert row[1..][1..][1..] == [3 < score, 4 < score];
    assert row[1..][1..][1..][1..] == [4 < score];
    assert row[1..][1..][1..][1..][1..] == [];
    var b := (i: int) => if i < score then 1 else 0;
    assert Filled(row[1..][1..][1..][1..]) == b(4);
    assert Filled(row[1..][1..][1..]) == b(3) + b(4);
    assert Filled(row[1..][1..]) == b(2) + b(3) + b(4);
    assert Filled(row[1..]) == b(1) + b(2) + b(3) + b(4);
    assert Filled(row) == b(0) + b(1) + b(2) + b(3) + b(4);
  }

  /** At most the first five ratings are shown. */
  function Recent<T>(ratings: seq<T>): (r: seq<T>)
    ensures |r| == if |ratings| < 5 then |ratings| else 5
    ensures r <= ratings
  {
    if |ratings| <= 5 then ratings else ratings[..5]
  }
}
