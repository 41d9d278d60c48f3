/** The filter chain of the company panel (`renderCompanyList`): a
    case-insensitive search on the name, then, when the favourites box is
    ticked, only the favourites. */
module CompanyList {
  import opened Seqs
  import opened Text

  /** `names.filter(company => company.toLowerCase().includes(term))` */
  function MatchingSearch(names: seq<string>, term: string): (r: seq<string>)
    ensures IsSubsequence(r, names)
    ensures forall i :: 0 <= i < |r| ==> Includes(ToLower(r[i]), term)
    ensures forall i :: 0 <= i < |names| && Includes(ToLower(names[i]), term) ==> names[i] in r
  {
    if names == [] then []
    else
      var rest := MatchingSearch(names[1..], term);
      assert forall i :: 1 <= i < |names| ==> names[i] == names[1..][i - 1];
      if Includes(ToLower(names[0]), term) then
        assert ([names[0]] + rest)[1..] == rest;
        [names[0]] + rest
      else rest
  }

  /** The search filter keeps each matching name as often as it occurs and
      drops every other name. */
  lemma {:induction false} MatchingSearchCounts(names: seq<string>, term: string)
    ensures forall y :: multiset(MatchingSearch(names, term))[y] == if Includes(ToLower(y), term) then multiset(names)[y] else 0
  {
    if names != [] {
      MatchingSearchCounts(names[1..], term);
      assert names == [names[0]] + names[1..];
    }
  }

  /** `names.filter(company => favorites.includes(company))` */
  function InFavorites(names: seq<string>, favorites: seq<string>): (r: seq<string>)
    ensures IsSubsequence(r, names)
    ensures forall i :: 0 <= i < |r| ==> r[i] in favorites
    ensures forall i :: 0 <= i < |names| && names[i] in favorites ==> names[i] in r
  {
    if names == [] then []
    else
      var rest := InFavorites(names[1..], favorites);
      assert forall i :: 1 <= i < |names| ==> names[i] == names[1..][i - 1];
      if names[0] in favorites then
        assert ([names[0]] + rest)[1..] == rest;
        [names[0]] + rest
      else rest
  }

  /** The favourites filter keeps each favourite name as often as it occurs
      and drops every other name. */
  lemma {:induction false} InFavoritesCounts(names: seq<string>, favorites: seq<string>)
    ensures forall y :: multiset(InFavorites(names, favorites))[y] == if y in favorites then multiset(names)[y] else 0
  {
    if names != [] {
      InFavoritesCounts(names[1..], favorites);
      assert names == [names[0]] + names[1..];
    }
  }

  /** The names the company panel lists, given the search box contents and
      the state of the favourites-only box. An empty search term (after
      lower-casing) applies no search filter. */
  function VisibleCompanies(companies: seq<string>, favorites: seq<string>, searchInput: string, favoritesOnly: bool): (r: seq<string>)
    ensures IsSubsequence(r, companies)
    ensures favoritesOnly ==> forall i :: 0 <= i < |r| ==> r[i] in favorites
  {
    var term := ToLower(searchInput);
    SubsequenceReflexive(companies);
    var bySearch := if term != [] then MatchingSearch(companies, term) else companies;
    if favoritesOnly then
      SubsequenceTransitive(InFavorites(bySearch, favorites), bySearch, companies);
      InFavorites(bySearch, favorites)
    else bySearch
  }

  /** The panel lists, in index order, exactly the companies whose lower-cased
      name contains the lower-cased search term and, when the favourites box
      is ticked, that are favourites. */
  lemma VisibleCompaniesSpec(companies: seq<string>, favorites: seq<string>, searchInput: string, favoritesOnly: bool)
    ensures IsSubsequence(VisibleCompanies(companies, favorites, searchInput, favoritesOnly), companies)
    ensures forall name ::
              name in VisibleCompanies(companies, favorites, searchInput, favoritesOnly)
              <==> name in companies && Includes(ToLower(name), ToLower(searchInput)) && (favoritesOnly ==> name in favorites)
  {
    var term := ToLower(searchInput);
    var bySearch := if term != [] then MatchingSearch(companies, term) else companies;
    var r := VisibleCompanies(companies, favorites, searchInput, favoritesOnly);
    SubsequenceReflexive(companies);
    SubsequenceReflexive(bySearch);
    SubsequenceMembers(bySearch, companies);
    SubsequenceMembers(r, bySearch);
    SubsequenceTransitive(r, bySearch, companies);
    forall name ensures name in r <==> name in companies && Includes(ToLower(name), term) && (favoritesOnly ==> name in favorites) {
      if term == [] {
        assert Includes(ToLower(name), []);
      }
      if name in r {
        var i :| 0 <= i < |r| && r[i] == name;
      }
      if name in bySearch {
        var i :| 0 <= i < |bySearch| && bySearch[i] == name;
      }
      if name in companies {
        var i :| 0 <= i < |companies| && companies[i] == name;
      }
    }
  }

  /** With no search term and the favourites box clear, every company is listed. */
  lemma NoFilterListsAll(companies: seq<string>, favorites: seq<string>)
    ensures VisibleCompanies(companies, favorites, [], false) == companies
  {
  }
}
