/**
 * The donation details page: the validity status and the days-left text, the
 * donor's rating drawn as stars, the food-type and user-type labels, the two
 * address lines, and whether the "request" button is shown. Dates are integer
 * days; JavaScript's truthiness of a text is "present and non-empty".
 */
module FoodDetails {
  import opened Common
  import opened Text
  import MyDonations

  // ----- validity -----

  datatype StatusInfo = StatusInfo(text: string, cssClass: string)

  /** `getStatusInfo`: available without a date, expired below 0 days left, urgent up to 3, else available. */
  function GetStatusInfo(expiry: Option<int>, today: int): (s: StatusInfo)
    ensures s.text == "Vencido" <==> expiry.Some? && expiry.value < today
    ensures s.text == "Urgente" <==> expiry.Some? && today <= expiry.value <= today + 3
    ensures s.text !in {"Vencido", "Urgente"} ==> s == StatusInfo("Disponível", "available")
  {
    if expiry.None? then StatusInfo("Disponível", "available")
    else if expiry.value - today < 0 then StatusInfo("Vencido", "expired")
    else if expiry.value - today <= 3 then StatusInfo("Urgente", "urgent")
    else StatusInfo("Disponível", "available")
  }

  /** The details page and the donor's card agree on every donation's validity badge. */
  lemma StatusAgreesWithCard(expiry: Option<int>, today: int)
    ensures GetStatusInfo(expiry, today).text == "Vencido" <==> MyDonations.CardBadge(expiry, today) == MyDonations.Expired
    ensures GetStatusInfo(expiry, today).text == "Urgente" <==> MyDonations.CardBadge(expiry, today) == MyDonations.Urgent
  {
  }

  /** `calculateDaysRemaining`. */
  function DaysRemaining(expiry: Option<int>, today: int): (t: string)
    ensures expiry.None? ==> t == "Não informado"
    ensures expiry.Some? && expiry.value < today ==> t == "Vencido"
    ensures expiry.Some? && expiry.value == today ==> t == "Vence hoje"
    ensures expiry.Some? && expiry.value == today + 1 ==> t == "1 dia"
    ensures expiry.Some? && expiry.value > today + 1 ==> t == IntToString(expiry.value - today) + " dias"
  {
    if expiry.None? then "Não informado"
    else
      var days := expiry.value - today;
      if days < 0 then "Vencido"
      else if days == 0 then "Vence hoje"
      else if days == 1 then "1 dia"
      else IntToString(days) + " dias"
  }

  /** Two different numbers of days left beyond one never read the same. */
  lemma DaysRemainingDistinguishes(a: int, b: int, today: int)
    requires a > today + 1 && b > today + 1
    requires DaysRemaining(Some(a), today) == DaysRemaining(Some(b), today)
    ensures a == b
  {
    var ta := IntToString(a - today);
    var tb := IntToString(b - today);
    assert ta + " dias" == tb + " dias";
    assert |ta| == |tb|;
    assert ta == (ta + " dias")[..|ta|];
    assert tb == (tb + " dias")[..|tb|];
    IntToStringInjective(a - today, b - today);
  }

  // ----- stars -----

  datatype Star = FullStar | HalfStar | EmptyStar

  /** JavaScript's `Math.trunc`. */
  function Trunc(r: real): (t: int)
    ensures r >= 0.0 ==> t == r.Floor
    ensures r < 0.0 ==> t == -((-r).Floor)
  {
    if r >= 0.0 then r.Floor else -((-r).Floor)
  }

  /** JavaScript's `r % 1`: the fraction, with the sign of `r`. */
  function Frac(r: real): real { r - Trunc(r) as real }

  function Repeat(s: Star, n: int): (r: seq<Star>)
    ensures |r| == if n < 0 then 0 else n
    ensures forall i :: 0 <= i < |r| ==> r[i] == s
  {
    if n <= 0 then [] else [s] + Repeat(s, n - 1)
  }

  /**
   * `getStarsHTML`: ⌊rating⌋ full stars, a half star when `rating % 1` is at
   * least one half, then `5 - full - half` empty ones (none when that is negative).
   */
  method GetStars(rating: real) returns (stars: seq<Star>)
    ensures var full := rating.Floor;
      var half := Frac(rating) >= 0.5;
      stars == Repeat(FullStar, full) + (if half then [HalfStar] else []) + Repeat(EmptyStar, 5 - full - (if half then 1 else 0))
  {
    var full := rating.Floor;
    var half := Frac(rating) >= 0.5;
    var empty := 5 - full - (if half then 1 else 0);
    stars := AppendStars([], FullStar, full);
    if half {
      stars := stars + [HalfStar];
    }
    stars := AppendStars(stars, EmptyStar, empty);
  }

  /** One `for` loop of `getStarsHTML`: `n` more stars of one kind (none when `n` is not positive). */
  method AppendStars(prefix: seq<Star>, s: Star, n: int) returns (stars: seq<Star>)
    ensures stars == prefix + Repeat(s, n)
  {
    stars := prefix;
    var i := 0;
    while i < n
      invariant n <= 0 ==> i == 0
      invariant n > 0 ==> 0 <= i <= n
      invariant stars == prefix + Repeat(s, i)
    {
      RepeatSnoc(s, i);
      stars := stars + [s];
      i := i + 1;
    }
  }

  lemma {:induction false} RepeatSnoc(s: Star, n: nat)
    ensures Repeat(s, n) + [s] == Repeat(s, n + 1)
  {
    if n > 0 {
      RepeatSnoc(s, n - 1);
    }
  }

  /** The star row of a rating between 0 and 5. */
  function StarCount(rating: real): int {
    var full := rating.Floor;
    var half := Frac(rating) >= 0.5;
    var empty := 5 - full - (if half then 1 else 0);
    (if full < 0 then 0 else full) + (if half then 1 else 0) + (if empty < 0 then 0 else empty)
  }

  /** Any rating from 0 to 5 is drawn with exactly five stars. */
  lemma FiveStars(rating: real)
    requires 0.0 <= rating <= 5.0
    ensures StarCount(rating) == 5
  {
    var full := rating.Floor;
    assert 0 <= full <= 5;
    if full == 5 {
      assert rating == 5.0;
      assert Frac(rating) == 0.0;
    }
  }

  /** The rows `GetStars` draws have `StarCount` stars. */
  lemma StarCountIsLength(rating: real)
    ensures var full := rating.Floor;
      var half := Frac(rating) >= 0.5;
      |Repeat(FullStar, full) + (if half then [HalfStar] else []) + Repeat(EmptyStar, 5 - full - (if half then 1 else 0))|
        == StarCount(rating)
  {
  }

  // ----- labels -----

  /** `getTipoLabel`: the known food-type label, else the raw type if non-empty, else `Alimento`. */
  function FoodTypeLabel(t: Option<string>): (l: string)
    ensures l != ""
    ensures t.None? || t.value == "" ==> l == "Alimento"
    ensures t.Some? && t.value != "" && t.value !in
      {"INDUSTRIALIZADO", "COZIDO", "CRU", "FRUTAS_VERDURAS", "LATICINIOS", "BEBIDAS", "PERECIVEL", "NAO_PERECIVEL", "PREPARADO"}
      ==> l == t.value
  {
    if t.None? then "Alimento"
    else match t.value
      case "INDUSTRIALIZADO" => "Industrializado"
      case "COZIDO" => "Refeição Pronta"
      case "CRU" => "Matéria-prima"
      case "FRUTAS_VERDURAS" => "Frutas e Verduras"
      case "LATICINIOS" => "Laticínios"
      case "BEBIDAS" => "Bebidas"
      case "PERECIVEL" => "Perecível"
      case "NAO_PERECIVEL" => "Não Perecível"
      case "PREPARADO" => "Preparado"
      case _ => if t.value != "" then t.value else "Alimento"
  }

  /** `getTipoUsuarioLabel`: the known user-type label, `Pessoa Física` for anything else. */
  function UserTypeLabel(t: Option<string>): (l: string)
    ensures t.None? || t.value !in {"PESSOA_FISICA", "ONG", "EMPRESA", "ESTABELECIMENTO"} ==> l == "Pessoa Física"
    ensures t == Some("EMPRESA") ==> l == "Empresa"
  {
    if t == Some("ONG") then "ONG"
    else if t == Some("EMPRESA") then "Empresa"
    else if t == Some("ESTABELECIMENTO") then "Estabelecimento"
    else "Pessoa Física"
  }

  // ----- location -----

  predicate Truthy(s: Option<string>) { s.Some? && s.value != "" }

  /** The address fields of a donation as received. */
  datatype Place = Place(street: Option<string>, number: Option<string>, complement: Option<string>,
                         address: Option<string>, city: Option<string>, state: Option<string>, cep: Option<string>)

  /** An optional segment: the separator and the value when the value is truthy, else nothing. */
  function Segment(sep: string, o: Option<string>): string {
    if Truthy(o) then sep + o.value else ""
  }

  /** The first line of `displayLocation`: the street with number and complement, else the free address, else a placeholder. */
  function AddressLine(p: Place): (line: string)
    ensures Truthy(p.street) ==> line == p.street.value + Segment(", ", p.number) + Segment(" - ", p.complement)
    ensures !Truthy(p.street) && Truthy(p.address) ==> line == p.address.value
    ensures !Truthy(p.street) && !Truthy(p.address) ==> line == "Endereço não informado"
  {
    if Truthy(p.street) then
      p.street.value + (if Truthy(p.number) then ", " + p.number.value else "")
                     + (if Truthy(p.complement) then " - " + p.complement.value else "")
    else if Truthy(p.address) then p.address.value
    else "Endereço não informado"
  }

  /** The second line: `cidade[ - estado][ | CEP: cep]`, only with a city; else a placeholder. */
  function CityLine(p: Place): (line: string)
    ensures !Truthy(p.city) ==> line == "Cidade não informada"
    ensures Truthy(p.city) ==> line == p.city.value + Segment(" - ", p.state) + Segment(" | CEP: ", p.cep)
  {
    if Truthy(p.city) then
      p.city.value + (if Truthy(p.state) then " - " + p.state.value else "")
                   + (if Truthy(p.cep) then " | CEP: " + p.cep.value else "")
    else "Cidade não informada"
  }

  /** With a street, the free-form address field plays no part in the first line. */
  lemma StreetWinsOverAddress(p: Place, other: Option<string>)
    requires Truthy(p.street)
    ensures AddressLine(p) == AddressLine(p.(address := other))
  {
  }

  // ----- owner -----

  /**
   * `checkIfUserIsOwner`: `None` leaves the button as it is (not logged in);
   * otherwise whether it is shown. It is hidden exactly when both ids are
   * present, non-zero (truthy) and equal.
   */
  function RequestButtonShown(loggedIn: bool, donorId: Option<int>, userId: Option<int>): (shown: Option<bool>)
    ensures !loggedIn <==> shown.None?
    ensures shown == Some(false) <==> loggedIn && donorId.Some? && userId.Some? && donorId.value != 0 && donorId == userId
  {
    if !loggedIn then None
    else Some(!(donorId.Some? && donorId.value != 0 && userId.Some? && userId.value != 0 && donorId.value == userId.value))
  }
}
