/** The facilities page: a search box and type buttons narrowing the list of
    facilities on show. */
module FacilitiesPage {
  import opened FacilityCards
  import opened Text
  import Sequences

  /** `searchTerm` and `activeFilter`. */
  datatype Filters = Filters(searchTerm: string, activeFilter: string)

  const All := "all"

  /** The initial filters, and what "Reset Filters" sets. */
  function ResetFilters(): Filters {
    Filters("", All)
  }

  /** The search looks in the name and the description, not in the type. */
  predicate MatchesSearch(f: FacilityCard, term: string) {
    Contains(ToLower(f.name), ToLower(term)) || Contains(ToLower(f.description), ToLower(term))
  }

  predicate MatchesType(f: FacilityCard, filter: string) {
    ToLower(f.kind) == ToLower(filter)
  }

  /** Both filters at once. An empty term matches every facility, so the
      search stage can be stated without the page's emptiness guard. */
  predicate Shown(f: FacilityCard, filters: Filters) {
    MatchesSearch(f, filters.searchTerm) && (filters.activeFilter == All || MatchesType(f, filters.activeFilter))
  }

  /** The filter effect: a search stage when the term is non-empty, then a
      type stage unless the filter is 'all'. The two stages together keep
      exactly what one filter by both predicates keeps, in the same order. */
  function Visible(facilities: seq<FacilityCard>, filters: Filters): (r: seq<FacilityCard>)
    ensures r == Sequences.Filter((f: FacilityCard) => Shown(f, filters), facilities)
  {
    var term, active := filters.searchTerm, filters.activeFilter;
    var search := (f: FacilityCard) => MatchesSearch(f, term);
    var kind := (f: FacilityCard) => MatchesType(f, active);
    var shown := (f: FacilityCard) => Shown(f, filters);
    EmptyTermMatches(facilities, term);
    var searched := if term != "" then Sequences.Filter(search, facilities) else facilities;
    assert searched == Sequences.Filter(search, facilities) by {
      if term == "" { Sequences.FilterAll(search, facilities); }
    }
    if active != All then
      Sequences.FilterFilter(search, kind, shown, facilities);
      Sequences.Filter(kind, searched)
    else
      Sequences.FilterCongruent(search, shown, facilities);
      searched
  }

  /** An empty term is contained in every name. */
  lemma EmptyTermMatches(facilities: seq<FacilityCard>, term: string)
    ensures term == "" ==> forall f :: f in facilities ==> MatchesSearch(f, term)
  {
    forall f | f in facilities && term == ""
      ensures MatchesSearch(f, term)
    {
      ContainsEmpty(ToLower(f.name));
      assert ToLower(term) == "";
    }
  }

  /** A facility is on show exactly when it is in the list and passes both filters. */
  lemma VisibleMembers(facilities: seq<FacilityCard>, filters: Filters)
    ensures forall f :: f in Visible(facilities, filters) <==> f in facilities && Shown(f, filters)
  {
  }

  /** What is on show keeps the order of the full list. */
  lemma VisibleInOrder(facilities: seq<FacilityCard>, filters: Filters)
    ensures Sequences.IsSubsequence(Visible(facilities, filters), facilities)
  {
    Sequences.FilterIsSubsequence((f: FacilityCard) => Shown(f, filters), facilities);
  }

  /** With no term and 'all', and so after "Reset Filters", everything is on show. */
  lemma ResetShowsAll(facilities: seq<FacilityCard>)
    ensures Visible(facilities, ResetFilters()) == facilities
  {
  }
}
