/** The booking page: search the facilities, pick one, and go back to the
    list with "Change Facility". */
module BookingPage {
  import opened Options
  import opened FacilityCards
  import opened Text
  import Sequences

  /** The search looks in the name and the type, not in the description. */
  predicate Matches(f: FacilityCard, term: string) {
    Contains(ToLower(f.name), ToLower(term)) || Contains(ToLower(f.kind), ToLower(term))
  }

  /** `filteredFacilities`. */
  function FilteredFacilities(facilities: seq<FacilityCard>, term: string): (r: seq<FacilityCard>)
    ensures forall f :: f in r <==> f in facilities && Matches(f, term)
    ensures Sequences.IsSubsequence(r, facilities)
  {
    Sequences.FilterIsSubsequence((f: FacilityCard) => Matches(f, term), facilities);
    Sequences.Filter((f: FacilityCard) => Matches(f, term), facilities)
  }

  /** An empty search term keeps every facility. */
  lemma EmptyTermKeepsAll(facilities: seq<FacilityCard>)
    ensures FilteredFacilities(facilities, "") == facilities
  {
    forall f | f in facilities
      ensures Matches(f, "")
    {
      ContainsEmpty(ToLower(f.name));
      assert ToLower("") == "";
    }
    Sequences.FilterAll((f: FacilityCard) => Matches(f, ""), facilities);
  }

  /** The search ignores the case of ASCII letters in the term. */
  lemma IgnoresTermCase(facilities: seq<FacilityCard>, term: string)
    ensures FilteredFacilities(facilities, ToUpper(term)) == FilteredFacilities(facilities, term)
    ensures FilteredFacilities(facilities, ToLower(term)) == FilteredFacilities(facilities, term)
  {
    ToLowerOfUpper(term);
    assert ToLower(ToLower(term)) == ToLower(term);
    Sequences.FilterCongruent((f: FacilityCard) => Matches(f, ToUpper(term)), (f: FacilityCard) => Matches(f, term), facilities);
    Sequences.FilterCongruent((f: FacilityCard) => Matches(f, ToLower(term)), (f: FacilityCard) => Matches(f, term), facilities);
  }

  /** `facilities`, `selectedFacility` and `searchTerm`. */
  datatype PageState = PageState(facilities: seq<FacilityCard>, selected: Option<FacilityCard>, searchTerm: string)

  /** The page as it opens: nothing selected and, with an empty search,
      every facility on show. */
  function Initial(facilities: seq<FacilityCard>): (st: PageState)
    ensures st.facilities == facilities && st.selected.None?
    ensures FilteredFacilities(st.facilities, st.searchTerm) == facilities
  {
    EmptyTermKeepsAll(facilities);
    PageState(facilities, None, "")
  }

  /** Typing in the search box, or "Clear Search" with the empty term: the
      cards on show become those matching the term, and "Clear Search" shows
      them all again; the selection and the list are untouched. */
  function SetSearch(st: PageState, term: string): (r: PageState)
    ensures r.facilities == st.facilities && r.selected == st.selected
    ensures forall f :: f in FilteredFacilities(r.facilities, r.searchTerm) <==> f in st.facilities && Matches(f, term)
    ensures term == "" ==> FilteredFacilities(r.facilities, r.searchTerm) == st.facilities
  {
    EmptyTermKeepsAll(st.facilities);
    st.(searchTerm := term)
  }

  /** Clicking the `k`-th card of the list on show; the cards are on show
      only while nothing is selected. */
  function SelectFacility(st: PageState, k: nat): (r: PageState)
    requires st.selected.None? && k < |FilteredFacilities(st.facilities, st.searchTerm)|
    ensures r.selected == Some(FilteredFacilities(st.facilities, st.searchTerm)[k])
    ensures r.selected.value in st.facilities && Matches(r.selected.value, st.searchTerm)
    ensures r.facilities == st.facilities && r.searchTerm == st.searchTerm
  {
    var shown := FilteredFacilities(st.facilities, st.searchTerm);
    assert shown[k] in shown;
    st.(selected := Some(shown[k]))
  }

  /** "Change Facility". */
  function ChangeFacility(st: PageState): (r: PageState)
    ensures r.selected.None?
    ensures r.facilities == st.facilities && r.searchTerm == st.searchTerm
  {
    st.(selected := None)
  }

  /** Picking a facility and then "Change Facility" returns to the list as it was. */
  lemma SelectThenChange(st: PageState, k: nat)
    requires st.selected.None? && k < |FilteredFacilities(st.facilities, st.searchTerm)|
    ensures ChangeFacility(SelectFacility(st, k)) == st
  {
  }
}
