/**
 * The navigation bar: which page is open, taken from the URL path, and which
 * link of the bar is marked as the current one. The links of the bar are an
 * array of elements, each with its `href` and its two marks (`active` class
 * and `aria-current`).
 */
module Navbar {
  import opened Common
  import opened Text

  /** The text before the first `c`: `s.split(c)[0]`. */
  function BeforeFirst(s: string, c: char): (r: string)
    ensures c !in r && r <= s
    ensures c !in s ==> r == s
    ensures |r| < |s| ==> s[|r|] == c
    ensures forall x :: x in r ==> x in s
  {
    if s == [] || s[0] == c then [] else [s[0]] + BeforeFirst(s[1..], c)
  }

  /**
   * `getCurrentPage`: the last segment of the path (`index.html` when empty),
   * cut at the first `?` and then at the first `#`, lower-cased.
   */
  function CurrentPage(path: string): (page: string)
    ensures '/' !in page && '?' !in page && '#' !in page
    ensures NoCapitals(page)
    ensures path == [] || path[|path| - 1] == '/' ==> page == "index.html"
    ensures var last := AfterLast(path, '/'); last != [] ==>
      |page| <= |last| && page == Lower(last[..|page|]) &&
      '?' !in last[..|page|] && '#' !in last[..|page|] &&
      (|page| < |last| ==> last[|page|] == '?' || last[|page|] == '#')
  {
    var last := AfterLast(path, '/');
    SlashEndLeavesNothing(path);
    // `index.html` has no `?` or `#` and is lower case: cutting and lower-casing leave it as it is
    if last == [] then "index.html"
    else
      CutIsClean(last);
      CutStopsAtMark(last);
      Lower(BeforeFirst(BeforeFirst(last, '?'), '#'))
  }

  /** Cutting at `?` and then at `#` keeps exactly the part of `s` before its first `?` or `#`. */
  lemma {:induction false} CutStopsAtMark(s: string)
    ensures var cut := BeforeFirst(BeforeFirst(s, '?'), '#');
      |cut| <= |s| && cut == s[..|cut|] && '?' !in cut && '#' !in cut &&
      (|cut| < |s| ==> s[|cut|] == '?' || s[|cut|] == '#')
  {
    var query := BeforeFirst(s, '?');
    var cut := BeforeFirst(query, '#');
    assert query == s[..|query|];
    assert cut == query[..|cut|];
    assert cut == s[..|cut|];
    assert forall i :: 0 <= i < |cut| ==> cut[i] == query[i];
    if |cut| < |s| {
      if |cut| == |query| {
        assert s[|cut|] == '?';
      } else {
        assert s[|cut|] == query[|cut|];
      }
    }
  }

  lemma SlashEndLeavesNothing(path: string)
    ensures path != [] && path[|path| - 1] == '/' ==> AfterLast(path, '/') == []
  {
    assert path != [] && path[|path| - 1] == '/' ==> LastIndexOf(path, '/') == Some(|path| - 1);
  }

  predicate NoCapitals(s: string) {
    forall i :: 0 <= i < |s| ==> !('A' <= s[i] <= 'Z')
  }

  /** A segment cut at `?` and `#` and lower-cased holds none of `/?#` and no capital. */
  lemma CutIsClean(last: string)
    requires '/' !in last
    ensures var p := Lower(BeforeFirst(BeforeFirst(last, '?'), '#'));
      '/' !in p && '?' !in p && '#' !in p && NoCapitals(p)
  {
    var cut := BeforeFirst(BeforeFirst(last, '?'), '#');
    LowerKeeps(cut, '/');
    LowerKeeps(cut, '?');
    LowerKeeps(cut, '#');
  }

  /** Lower-casing does not create a character that is not a letter. */
  lemma LowerKeeps(s: string, c: char)
    requires c !in s && !('A' <= c <= 'Z') && !('a' <= c <= 'z')
    ensures c !in Lower(s)
  {
  }

  /** The hrefs tried for each known page, in order. */
  function PageMap(page: string): (targets: Option<seq<string>>)
    ensures targets.Some? ==> |targets.value| >= 2
  {
    match page
    case "index.html" => Some(["index.html", "./index.html"])
    case "doacoes.html" => Some(["doacoes.html", "./doacoes.html", "alimentos disponíveis"])
    case "cadastro_alimento.html" => Some(["cadastro_alimento.html", "./cadastro_alimento.html"])
    case "minhas-doacoes.html" => Some(["minhas-doacoes.html", "./minhas-doacoes.html"])
    case "solicitacoes.html" => Some(["solicitacoes.html", "./solicitacoes.html"])
    case "sobre.html" => Some(["./Sobre.html", "Sobre.html", "./sobre.html"])
    case "comodoar.html" => Some(["./Como_Doar.html", "Como_Doar.html", "./comodoar.html", "./Como_Doar.html"])
    case "como_doar.html" => Some(["./Como_Doar.html", "Como_Doar.html", "./Como_Doar.html"])
    case "como-doar.html" => Some(["./Como_Doar.html", "Como_Doar.html", "./Como_Doar.html"])
    case "porquedoar.html" => Some(["./porqueDoar.html", "porqueDoar.html", "./porquedoar.html"])
    case "paginausuario.html" => Some(["paginaUsuario.html", "./paginaUsuario.html"])
    case "detalhes-alimento.html" => Some(["detalhes-alimento.html", "./detalhes-alimento.html"])
    case "chat.html" => Some(["chat.html", "./chat.html"])
    case _ => None
  }

  /** A name without its first `.html` and without any `_` or `-`. */
  function Normalized(name: string): (r: string)
    ensures '_' !in r && '-' !in r
  {
    RemoveAll(RemoveAll(ReplaceFirst(name, ".html", ""), '_'), '-')
  }

  /** Removing every `c` leaves exactly the other characters of the text. */
  lemma {:induction false} RemoveAllKeeps(s: string, c: char)
    ensures forall d :: d in RemoveAll(s, c) <==> d in s && d != c
  {
    if s != [] {
      RemoveAllKeeps(s[1..], c);
      assert forall d :: d in s <==> d == s[0] || d in s[1..];
      assert RemoveAll(s, c) == (if s[0] == c then [] else [s[0]]) + RemoveAll(s[1..], c);
    }
  }

  /** A normalized name holds exactly the characters of the name without its `.html` other than `_` and `-`. */
  lemma NormalizedCharacters(name: string)
    ensures forall d :: d in Normalized(name) <==> d in ReplaceFirst(name, ".html", "") && d != '_' && d != '-'
  {
    var once := RemoveAll(ReplaceFirst(name, ".html", ""), '_');
    RemoveAllKeeps(once, '-');
    RemoveAllKeeps(ReplaceFirst(name, ".html", ""), '_');
  }

  /** The fallback test of one link: either name contains the other, or their normalized names coincide. */
  predicate FallbackMatch(page: string, href: string)
    ensures EqualsIgnoreCase(page, href) ==> FallbackMatch(page, href)
  {
    SameUpToCaseContains(page, href);
    var pl := Lower(page);
    var hl := Lower(href);
    var file := AfterLast(hl, '/');
    Contains(hl, pl) || Contains(pl, ReplaceFirst(file, ".html", "")) || Normalized(file) == Normalized(pl)
  }

  /** Two texts equal up to case lower-case to the same text, which contains itself. */
  lemma SameUpToCaseContains(page: string, href: string)
    ensures EqualsIgnoreCase(page, href) ==> Contains(Lower(href), Lower(page))
  {
    if EqualsIgnoreCase(page, href) {
      assert Lower(href) == Lower(page);
      assert OccursAt(Lower(href), Lower(page), 0);
    }
  }

  /** A link whose file name is empty (an `href` of `""` or ending in `/`) passes the fallback test for every page. */
  lemma EmptyFileMatchesEveryPage(page: string, href: string)
    requires AfterLast(Lower(href), '/') == []
    ensures FallbackMatch(page, href)
  {
    assert !Contains([], ".html") by {
      forall i: nat | i <= 0 ensures !OccursAt([], ".html", i) { }
    }
    assert OccursAt(Lower(page), [], 0);
  }

  /** The first index holding `h`: `querySelector` with an exact attribute match. */
  function IndexIn(hrefs: seq<string>, h: string): (i: Option<nat>)
    ensures i.Some? ==> i.value < |hrefs| && hrefs[i.value] == h && forall j :: 0 <= j < i.value ==> hrefs[j] != h
    ensures i.None? ==> h !in hrefs
  {
    if hrefs == [] then None
    else if hrefs[0] == h then Some(0)
    else match IndexIn(hrefs[1..], h)
      case None => None
      case Some(k) => Some(k + 1)
  }

  /** The first target that some link carries exactly, tried in the map's order. */
  function FirstExact(targets: seq<string>, hrefs: seq<string>): (i: Option<nat>)
    ensures i.Some? ==> i.value < |hrefs| && hrefs[i.value] in targets
    ensures i.None? <==> forall t :: t in targets ==> t !in hrefs
    ensures i.Some? ==> exists k :: FirstCarriedAt(targets, hrefs, k) && IndexIn(hrefs, targets[k]) == i
  {
    if targets == [] then None
    else match IndexIn(hrefs, targets[0])
      case Some(k) => Some(k)
      case None =>
        var r := FirstExact(targets[1..], hrefs);
        assert forall t :: t in targets <==> t == targets[0] || t in targets[1..];
        PreferenceShifts(targets, hrefs, r);
        r
  }

  /** `targets[k]` is carried by some link and no earlier target is. */
  predicate FirstCarriedAt(targets: seq<string>, hrefs: seq<string>, k: int) {
    0 <= k < |targets| && targets[k] in hrefs && forall j :: 0 <= j < k ==> targets[j] !in hrefs
  }

  /** The first carried target of `targets[1..]` is the first of `targets` when `targets[0]` is not carried. */
  lemma PreferenceShifts(targets: seq<string>, hrefs: seq<string>, r: Option<nat>)
    requires targets != [] && targets[0] !in hrefs
    requires r.Some? ==> exists k :: FirstCarriedAt(targets[1..], hrefs, k) && IndexIn(hrefs, targets[1..][k]) == r
    ensures r.Some? ==> exists k :: FirstCarriedAt(targets, hrefs, k) && IndexIn(hrefs, targets[k]) == r
  {
    if r.Some? {
      var k :| FirstCarriedAt(targets[1..], hrefs, k) && IndexIn(hrefs, targets[1..][k]) == r;
      assert IndexIn(hrefs, targets[k + 1]) == r;
      forall j | 0 <= j < k + 1 ensures targets[j] !in hrefs {
        if j > 0 { assert targets[j] == targets[1..][j - 1]; }
      }
      assert FirstCarriedAt(targets, hrefs, k + 1);
    }
  }

  /** The fallback verdict of every link, in order. */
  function Matches(page: string, hrefs: seq<string>): (m: seq<bool>)
    ensures |m| == |hrefs|
  {
    seq(|hrefs|, i requires 0 <= i < |hrefs| => FallbackMatch(page, hrefs[i]))
  }

  /** The last position holding `true` (each match overwrites the previous one). */
  function LastTrue(flags: seq<bool>): (i: Option<nat>)
    ensures i.Some? ==> i.value < |flags| && flags[i.value]
    ensures i.Some? ==> forall j :: i.value < j < |flags| ==> !flags[j]
    ensures i.None? <==> forall j :: 0 <= j < |flags| ==> !flags[j]
  {
    if flags == [] then None
    else if flags[|flags| - 1] then Some(|flags| - 1)
    else LastTrue(flags[..|flags| - 1])
  }

  /** One more flag: the last `true` is the new position when it holds, and the earlier one otherwise. */
  lemma LastTrueStep(flags: seq<bool>, i: nat)
    requires i < |flags|
    ensures LastTrue(flags[..i + 1]) == if flags[i] then Some(i) else LastTrue(flags[..i])
  {
    assert flags[..i + 1][..i] == flags[..i];
  }

  /** The link `markActivePage` marks: none for an unknown page; an exact match first; the fallback otherwise. */
  function Chosen(page: string, hrefs: seq<string>): (i: Option<nat>)
    ensures i.Some? ==> i.value < |hrefs| && PageMap(page).Some?
  {
    ChosenAmong(PageMap(page), page, hrefs)
  }

  function ChosenAmong(targets: Option<seq<string>>, page: string, hrefs: seq<string>): (i: Option<nat>)
    ensures i.Some? ==> i.value < |hrefs| && targets.Some?
  {
    match targets
    case None => None
    case Some(ts) =>
      var exact := FirstExact(ts, hrefs);
      if exact.Some? then exact else LastTrue(Matches(page, hrefs))
  }

  /** On a known page, a link carrying one of the page's targets exactly always wins over the fallback. */
  lemma ExactMatchWins(page: string, hrefs: seq<string>, t: string)
    requires PageMap(page).Some? && t in PageMap(page).value && t in hrefs
    ensures Chosen(page, hrefs).Some?
    ensures hrefs[Chosen(page, hrefs).value] in PageMap(page).value
  {
    assert FirstExact(PageMap(page).value, hrefs).Some?;
  }

  /** Without an exact match, the chosen link is the last one passing the fallback test, and none is chosen when none passes. */
  lemma FallbackIsLastMatch(page: string, hrefs: seq<string>)
    requires PageMap(page).Some? && forall t :: t in PageMap(page).value ==> t !in hrefs
    ensures Chosen(page, hrefs).Some? ==> FallbackMatch(page, hrefs[Chosen(page, hrefs).value])
    ensures Chosen(page, hrefs).Some? ==> forall j :: Chosen(page, hrefs).value < j < |hrefs| ==> !FallbackMatch(page, hrefs[j])
    ensures Chosen(page, hrefs).None? ==> forall j :: 0 <= j < |hrefs| ==> !FallbackMatch(page, hrefs[j])
  {
    var m := Matches(page, hrefs);
    assert Chosen(page, hrefs) == LastTrue(m);
    assert forall j :: 0 <= j < |hrefs| ==> m[j] == FallbackMatch(page, hrefs[j]);
  }

  const DropdownPages: seq<string> := ["solicitacoes.html", "cadastro_alimento.html", "chat.html", "minhas-doacoes.html"]

  datatype Link = Link(href: string, active: bool, current: bool)

  function Hrefs(links: seq<Link>): (hs: seq<string>)
    ensures |hs| == |links| && forall i :: 0 <= i < |links| ==> hs[i] == links[i].href
  {
    if links == [] then [] else [links[0].href] + Hrefs(links[1..])
  }

  class NavbarManager {
    const links: array<Link>
    var dropdownActive: bool

    constructor (links: array<Link>)
      ensures this.links == links && !dropdownActive
    {
      this.links := links;
      dropdownActive := false;
    }

    /** Takes `active` and `aria-current` off every link. */
    method ClearMarks()
      modifies links
      ensures forall i :: 0 <= i < links.Length ==> links[i] == old(links[i]).(active := false, current := false)
    {
      for i := 0 to links.Length
        invariant forall j :: 0 <= j < i ==> links[j] == old(links[j]).(active := false, current := false)
        invariant forall j :: i <= j < links.Length ==> links[j] == old(links[j])
      {
        links[i] := links[i].(active := false, current := false);
      }
    }

    /**
     * `markActivePage`: clears both marks on every link, then marks the chosen
     * link, and marks the dropdown toggle on the four pages of its menu.
     */
    method MarkActivePage(page: string)
      modifies links, this
      ensures forall i :: 0 <= i < links.Length ==> links[i].href == old(links[i].href)
      ensures forall i :: 0 <= i < links.Length ==>
        links[i].active == links[i].current == (Chosen(page, Hrefs(old(links[..]))) == Some(i))
      ensures forall i, j :: 0 <= i < j < links.Length ==> !(links[i].active && links[j].active)
      ensures dropdownActive == (old(dropdownActive) || page in DropdownPages)
    {
      MarkLinks(page);
      if page in DropdownPages {
        dropdownActive := true;
      }
    }

    /** The links part of `markActivePage`: at most one link keeps the two marks, the one `Chosen` names. */
    method MarkLinks(page: string)
      modifies links
      ensures forall i :: 0 <= i < links.Length ==> links[i].href == old(links[i].href)
      ensures forall i :: 0 <= i < links.Length ==>
        links[i].active == links[i].current == (Chosen(page, Hrefs(old(links[..]))) == Some(i))
    {
      ghost var before := links[..];
      ClearMarks();
      var hrefs := Hrefs(links[..]);
      SameHrefs(before, links[..]);
      ghost var chosen := Chosen(page, Hrefs(before));
      var targets := PageMap(page);
      var active: Option<nat> := None;
      if targets.Some? {
        active := ExactIndex(targets.value, hrefs);
        if active.None? {
          active := FallbackIndex(page, hrefs);
        }
      }
      assert active == chosen;
      if active.Some? {
        links[active.value] := links[active.value].(active := true, current := true);
      }
    }
  }

  /** Two link lists that agree on every `href` have the same hrefs. */
  lemma SameHrefs(a: seq<Link>, b: seq<Link>)
    requires |a| == |b| && forall i :: 0 <= i < |a| ==> a[i].href == b[i].href
    ensures Hrefs(a) == Hrefs(b)
  {
  }

  /** The exact-match pass: each target in turn, looked up among the links, until one is found. */
  method ExactIndex(targets: seq<string>, hrefs: seq<string>) returns (active: Option<nat>)
    ensures active == FirstExact(targets, hrefs)
  {
    active := None;
    var t := 0;
    while t < |targets| && active.None?
      invariant 0 <= t <= |targets|
      invariant active.None? ==> FirstExact(targets, hrefs) == FirstExact(targets[t..], hrefs)
      invariant active.Some? ==> active == FirstExact(targets, hrefs)
    {
      assert targets[t..][1..] == targets[t + 1..];
      active := IndexIn(hrefs, targets[t]);
      t := t + 1;
    }
    if active.None? {
      assert targets[t..] == [];
    }
  }

  /** The fallback pass: every link is checked and each one that passes replaces the previous choice. */
  method FallbackIndex(page: string, hrefs: seq<string>) returns (active: Option<nat>)
    ensures active == LastTrue(Matches(page, hrefs))
  {
    ghost var flags := Matches(page, hrefs);
    active := None;
    for i := 0 to |hrefs|
      invariant active == LastTrue(flags[..i])
    {
      LastTrueStep(flags, i);
      if FallbackMatch(page, hrefs[i]) {
        active := Some(i);
      }
    }
    assert flags[..|hrefs|] == flags;
  }
}
