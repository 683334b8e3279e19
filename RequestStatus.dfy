/** The four states of a donation request and their wire strings. */
module RequestStatus {
  import opened Common
  import opened Text

  datatype Status = Solicitada | EmAndamento | Concluida | Cancelada

  /** The constants in declaration order, as `values()` lists them. */
  const AllStatuses: seq<Status> := [Solicitada, EmAndamento, Concluida, Cancelada]

  /** The lower-case wire string of a status (`getValor`). */
  function Valor(s: Status): (v: string)
    ensures v != [] && forall i :: 0 <= i < |v| ==> ('a' <= v[i] <= 'z') || v[i] == '_'
  {
    match s
    case Solicitada => "solicitada"
    case EmAndamento => "em_andamento"
    case Concluida => "concluida"
    case Cancelada => "cancelada"
  }

  /** Every status is listed, and the four wire strings differ even ignoring case. */
  lemma ValorsDistinct()
    ensures forall s: Status :: s in AllStatuses
    ensures forall s: Status, t: Status :: s != t ==> !EqualsIgnoreCase(Valor(s), Valor(t))
  {
    forall s: Status ensures s in AllStatuses {
      match s
      case Solicitada => assert AllStatuses[0] == s;
      case EmAndamento => assert AllStatuses[1] == s;
      case Concluida => assert AllStatuses[2] == s;
      case Cancelada => assert AllStatuses[3] == s;
    }
    forall s: Status, t: Status | s != t
      ensures !EqualsIgnoreCase(Valor(s), Valor(t))
    {
      if |Valor(s)| == |Valor(t)| {
        assert {s, t} == {Concluida, Cancelada};
        assert LowerChar(Valor(s)[1]) != LowerChar(Valor(t)[1]);
      }
    }
  }

  /** The first status in `candidates` whose wire string matches `v` ignoring case. */
  function Search(candidates: seq<Status>, v: string): (r: Option<Status>)
    ensures r.Some? ==> r.value in candidates && EqualsIgnoreCase(Valor(r.value), v)
    ensures r.None? <==> forall t :: t in candidates ==> !EqualsIgnoreCase(Valor(t), v)
  {
    if candidates == [] then None
    else if EqualsIgnoreCase(Valor(candidates[0]), v) then Some(candidates[0])
    else Search(candidates[1..], v)
  }

  /**
   * `fromString`: the status whose wire string equals `v` ignoring case, and
   * `Solicitada` when none does (a Java `null` behaves like an unmatched string).
   */
  function FromString(v: string): (s: Status)
    ensures (exists t :: EqualsIgnoreCase(Valor(t), v)) ==> EqualsIgnoreCase(Valor(s), v)
    ensures (forall t :: !EqualsIgnoreCase(Valor(t), v)) ==> s == Solicitada
  {
    ValorsDistinct();
    Search(AllStatuses, v).GetOr(Solicitada)
  }

  /** Round trip: parsing a status's own wire string gives that status back. */
  lemma FromStringValor(s: Status)
    ensures FromString(Valor(s)) == s
  {
    ValorsDistinct();
    var r := FromString(Valor(s));
    assert EqualsIgnoreCase(Valor(s), Valor(s));
    assert EqualsIgnoreCase(Valor(r), Valor(s));
  }

  lemma EqualsIgnoreCaseSwap(a: string, v: string, w: string)
    requires EqualsIgnoreCase(v, w)
    ensures EqualsIgnoreCase(a, v) <==> EqualsIgnoreCase(a, w)
  {
  }

  lemma {:induction false} SearchIgnoresCase(candidates: seq<Status>, v: string, w: string)
    requires EqualsIgnoreCase(v, w)
    ensures Search(candidates, v) == Search(candidates, w)
  {
    if candidates != [] {
      EqualsIgnoreCaseSwap(Valor(candidates[0]), v, w);
      SearchIgnoresCase(candidates[1..], v, w);
    }
  }

  /** Parsing ignores case: strings equal up to case parse to the same status. */
  lemma FromStringIgnoresCase(v: string, w: string)
    requires EqualsIgnoreCase(v, w)
    ensures FromString(v) == FromString(w)
  {
    SearchIgnoresCase(AllStatuses, v, w);
  }

  /** Upper-case wire strings parse too, e.g. "EM_ANDAMENTO". */
  lemma FromStringUpperCase(s: Status)
    ensures FromString(Upper(Valor(s))) == s
  {
    var u := Upper(Valor(s));
    assert EqualsIgnoreCase(Valor(s), u);
    FromStringValor(s);
    FromStringIgnoresCase(Valor(s), u);
  }
}
