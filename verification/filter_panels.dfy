/** The three filter panels: single-field filter changes, clearing, the "active" flag,
    the searchable location lists, the open/closed sections, and the sort controls of the
    plain panel. */
module FilterPanels {
  import opened Types
  import opened Strings
  import opened Seqs
  import opened JobContext
  import opened JobQuery

  // ---------------------------------------------------------------- filter fields

  /** The four keys of `Filters`. */
  datatype FilterKey = JobTypeKey | ExperienceKey | LocationKey | SalaryRangeKey

  function FilterValue(f: Filters, key: FilterKey): string {
    match key
    case JobTypeKey => f.jobType
    case ExperienceKey => f.experience
    case LocationKey => f.location
    case SalaryRangeKey => f.salaryRange
  }

  /** `{ [filterType]: value }`: a patch that carries one field. */
  function SingleFieldPatch(key: FilterKey, value: string): (p: FilterPatch)
    ensures (p.jobType.Some? <==> key == JobTypeKey) && (p.experience.Some? <==> key == ExperienceKey)
    ensures (p.location.Some? <==> key == LocationKey) && (p.salaryRange.Some? <==> key == SalaryRangeKey)
  {
    match key
    case JobTypeKey => FilterPatch(Some(value), None, None, None)
    case ExperienceKey => FilterPatch(None, Some(value), None, None)
    case LocationKey => FilterPatch(None, None, Some(value), None)
    case SalaryRangeKey => FilterPatch(None, None, None, Some(value))
  }

  /** The `handleFilterChange` of every panel: one `SET_FILTERS` with one field. */
  function FilterChange(key: FilterKey, value: string): Action {
    SetFilters(SingleFieldPatch(key, value))
  }

  /** A filter change sets its field, keeps every other filter field, and changes nothing
      outside the filters. */
  lemma FilterChangeSetsOneField(s: JobState, key: FilterKey, value: string)
    ensures var t := Reduce(s, FilterChange(key, value));
      && FilterValue(t.filters, key) == value
      && (forall other :: other != key ==> FilterValue(t.filters, other) == FilterValue(s.filters, other))
      && t == s.(filters := t.filters)
  {
  }

  /** `Object.values(filters).some(v => v !== '')`. */
  predicate HasActiveFilters(f: Filters) {
    f.jobType != "" || f.experience != "" || f.location != "" || f.salaryRange != ""
  }

  /** The flag is set exactly when some field holds a value. */
  lemma HasActiveFiltersIffSomeField(f: Filters)
    ensures HasActiveFilters(f) <==> exists key :: FilterValue(f, key) != ""
  {
    if HasActiveFilters(f) {
      if f.jobType != "" { assert FilterValue(f, JobTypeKey) != ""; }
      else if f.experience != "" { assert FilterValue(f, ExperienceKey) != ""; }
      else if f.location != "" { assert FilterValue(f, LocationKey) != ""; }
      else { assert FilterValue(f, SalaryRangeKey) != ""; }
    }
  }

  /** `clearAllFilters`: every field set to "" in one dispatch, and the location search
      box emptied. Returns the dispatch and the new search text. */
  function ClearAll(): (r: (Action, string))
    ensures r.1 == ""
  {
    (SetFilters(FilterPatch(Some(""), Some(""), Some(""), Some(""))), "")
  }

  /** After clearing, no filter is active, the query admits every job (for an empty
      search), and nothing outside the filters changed. */
  lemma ClearAllDeactivates(s: JobState)
    ensures var t := Reduce(s, ClearAll().0);
      && t.filters == Filters("", "", "", "")
      && !HasActiveFilters(t.filters)
      && t == s.(filters := Filters("", "", "", ""))
      && multiset(Query(t.jobs, "", t.filters, t.sortBy)) == multiset(s.jobs)
  {
    var t := Reduce(s, ClearAll().0);
    UnconstrainedQueryShowsAll(s.jobs, t.sortBy);
  }

  // ---------------------------------------------------------------- location lists

  /** The location options of the two richer panels. */
  const PanelLocations: seq<string> := [
    "San Francisco, CA", "New York, NY", "Seattle, WA", "Austin, TX", "Boston, MA",
    "Los Angeles, CA", "Chicago, IL", "Denver, CO", "Atlanta, GA", "Miami, FL",
    "Portland, OR", "Nashville, TN", "London, UK", "Toronto, Canada", "Remote"]

  function MatchesSearch(search: string): string -> bool {
    loc => Contains(Lower(loc), Lower(search))
  }

  /** A list of options narrowed by a search text: a case-insensitive substring test,
      order kept. */
  function FilterOptions(options: seq<string>, search: string): (r: seq<string>)
    ensures forall x :: x in r <==> x in options && Contains(Lower(x), Lower(search))
  {
    Filter(options, MatchesSearch(search))
  }

  /** The location options shown for the search text in either richer panel. */
  function FilteredLocations(search: string): (r: seq<string>)
    ensures forall x :: x in r <==> x in PanelLocations && Contains(Lower(x), Lower(search))
  {
    FilterOptions(PanelLocations, search)
  }

  /** An empty search keeps every option, in order. */
  lemma EmptySearchKeepsAll(options: seq<string>)
    ensures FilterOptions(options, "") == options
  {
    forall k | 0 <= k < |options| ensures MatchesSearch("")(options[k]) {
      ContainsBasics(Lower(options[k]));
    }
    FilterKeepsAll(options, MatchesSearch(""));
  }

  /** With an empty search the panels show all fifteen locations. */
  lemma EmptySearchShowsAll()
    ensures FilteredLocations("") == PanelLocations && |FilteredLocations("")| == 15
  {
    EmptySearchKeepsAll(PanelLocations);
  }

  /** Narrowing the search never brings an option back: a search extended at either end
      shows a subset. */
  lemma LongerSearchShowsFewer(options: seq<string>, search: string, pre: string, post: string)
    ensures forall x :: x in FilterOptions(options, pre + search + post) ==> x in FilterOptions(options, search)
  {
    var l := Lower(pre + search + post);
    assert l == Lower(pre) + Lower(search) + Lower(post);
    ContainsBasics(Lower(search));
    ContainsInExtension(Lower(pre), Lower(search), Lower(post), Lower(search));
    forall x | x in FilterOptions(options, pre + search + post) ensures x in FilterOptions(options, search) {
      ContainsTransitive(Lower(x), l, Lower(search));
    }
  }

  /** The richer panel dispatches the city: the option's text before its first comma. */
  function UltimateLocationValue(option: string): (v: string)
    ensures ',' !in v && |v| <= |option| && option == v + option[|v|..]
  {
    Before(option, ',')
  }

  /** The richer panel marks an option selected when the filter contains its city. */
  predicate UltimateOptionSelected(f: Filters, option: string) {
    Contains(f.location, UltimateLocationValue(option))
  }

  /** Choosing an option in the richer panel marks it selected, and an option without a
      comma (such as "Remote") is dispatched unchanged. */
  lemma UltimateChoiceIsSelected(s: JobState, option: string)
    ensures UltimateOptionSelected(Reduce(s, FilterChange(LocationKey, UltimateLocationValue(option))).filters, option)
    ensures ',' !in option ==> UltimateLocationValue(option) == option
  {
    ContainsBasics(UltimateLocationValue(option));
    if ',' !in option {
      assert IndexOf(option, ',') == |option|;
    }
  }

  /** The enhanced panel dispatches the whole option and marks it selected by equality. */
  predicate EnhancedOptionSelected(f: Filters, option: string) {
    f.location == option
  }

  /** Choosing an option in the enhanced panel selects exactly that option. */
  lemma EnhancedChoiceIsSelected(s: JobState, option: string, other: string)
    ensures var f := Reduce(s, FilterChange(LocationKey, option)).filters;
      EnhancedOptionSelected(f, other) <==> other == option
  {
  }

  /** The plain panel's options: bare city names, two of which the richer panels lack. */
  const PlainLocations: seq<string> := [
    "San Francisco", "New York", "Seattle", "Austin", "Boston", "Los Angeles", "Chicago",
    "Denver", "Atlanta", "Miami", "Portland", "Nashville", "London", "Toronto", "Berlin",
    "Amsterdam", "Remote"]

  /** Choosing a city with no other filter or search keeps exactly the jobs whose location
      contains that name. */
  lemma PlainCityChoice(s: JobState, city: string)
    requires s.filters == Filters("", "", "", "") && city != ""
    ensures var t := Reduce(s, FilterChange(LocationKey, city));
      forall x :: x in Query(t.jobs, "", t.filters, t.sortBy) <==> x in s.jobs && Contains(x.location, city)
  {
    var t := Reduce(s, FilterChange(LocationKey, city));
    assert t == s.(filters := Filters("", "", city, ""));
    LocationFilterAlone(s.jobs, city, s.sortBy);
  }

  // ---------------------------------------------------------------- open sections

  /** The richer panel's four collapsible sections. */
  datatype Section = JobTypeSection | ExperienceSection | LocationSection | SalarySection

  datatype OpenSections = OpenSections(jobType: bool, experience: bool, location: bool, salary: bool) {
    function IsOpen(sec: Section): bool {
      match sec
      case JobTypeSection => jobType
      case ExperienceSection => experience
      case LocationSection => location
      case SalarySection => salary
    }
  }

  /** Type and experience start open, location and salary closed. */
  const InitialSections := OpenSections(true, true, false, false)

  /** `toggleSection`: the named section flips. */
  function ToggleSection(o: OpenSections, sec: Section): (r: OpenSections)
    ensures r.IsOpen(sec) == !o.IsOpen(sec)
    ensures forall other :: other != sec ==> r.IsOpen(other) == o.IsOpen(other)
  {
    match sec
    case JobTypeSection => o.(jobType := !o.jobType)
    case ExperienceSection => o.(experience := !o.experience)
    case LocationSection => o.(location := !o.location)
    case SalarySection => o.(salary := !o.salary)
  }

  /** Toggling a section twice restores it. */
  lemma ToggleSectionTwice(o: OpenSections, sec: Section)
    ensures ToggleSection(ToggleSection(o, sec), sec) == o
  {
  }

  /** The enhanced panel keeps the open accordion ids in a set; only "job-type" starts open. */
  const InitialAccordions: set<string> := {"job-type"}

  /** `toggleAccordion`: remove the id when present, add it when absent. */
  function ToggleAccordion(open: set<string>, id: string): (r: set<string>)
    ensures id in r <==> id !in open
    ensures forall other :: other != id ==> (other in r <==> other in open)
  {
    if id in open then open - {id} else open + {id}
  }

  /** Toggling an accordion twice restores the set. */
  lemma ToggleAccordionTwice(open: set<string>, id: string)
    ensures ToggleAccordion(ToggleAccordion(open, id), id) == open
  {
  }

  // ---------------------------------------------------------------- sort controls

  /** The value of the plain panel's field select, as the sort field it is cast to. */
  function FieldOfValue(v: string): (f: SortField)
    ensures f.OtherField? <==> v !in ["title", "company", "postedDate", "salary"]
    ensures v == "title" ==> f == Title
    ensures v == "company" ==> f == Company
    ensures v == "postedDate" ==> f == PostedDate
    ensures v == "salary" ==> f == Salary
    ensures f.OtherField? ==> f == OtherField(v)
  {
    if v == "title" then Title
    else if v == "company" then Company
    else if v == "postedDate" then PostedDate
    else if v == "salary" then Salary
    else OtherField(v)
  }

  function Flip(d: Direction): (r: Direction)
    ensures r != d
  {
    if d == Asc then Desc else Asc
  }

  /** `handleSortChange`: the whole sort replaced by one `SET_SORT`. */
  function SortChange(field: SortField, direction: Direction): Action {
    SetSort(Sort(field, direction))
  }

  /** The field select: the new field with the current direction. */
  function SelectField(s: JobState, v: string): Action {
    SortChange(FieldOfValue(v), s.sortBy.direction)
  }

  /** The direction button: the current field with the other direction. */
  function FlipDirection(s: JobState): Action {
    SortChange(s.sortBy.field, Flip(s.sortBy.direction))
  }

  /** Choosing a field keeps the direction, and only the sort changes. */
  lemma SelectFieldKeepsDirection(s: JobState, v: string)
    ensures var t := Reduce(s, SelectField(s, v));
      && t.sortBy.direction == s.sortBy.direction && t.sortBy.field == FieldOfValue(v)
      && t == s.(sortBy := t.sortBy)
  {
  }

  /** The button flips the direction and keeps the field; pressing it twice restores the
      sort, and the filters are never touched. */
  lemma FlipDirectionTwice(s: JobState)
    ensures var t := Reduce(s, FlipDirection(s));
      && t.sortBy.field == s.sortBy.field && t.sortBy.direction != s.sortBy.direction
      && t.filters == s.filters
      && Reduce(t, FlipDirection(t)) == s
  {
  }
}
