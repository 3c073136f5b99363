/** The two job-list screens. Both load the job data through the store, run the query
    pipeline on the debounced search term, and render a loading, error, empty or result
    screen; they differ in when they load and in what they say. */
module JobLists {
  import opened Types
  import opened Seqs
  import opened JobContext
  import opened JobQuery
  import opened Strings

  /** What a list screen shows. `ListScreen` carries the heading count, the term echoed
      under it (if any), the empty-state message (if the list is empty) and the cards. */
  datatype Screen =
    | LoadingScreen
    | ErrorScreen(message: string)
    | ListScreen(count: nat, searchFor: Option<string>, emptyMessage: Option<string>, cards: seq<Job>)

  /** The dispatches of one load: raise the loading flag, then (after a delay) store the
      data and lower the flag. */
  function LoadSequence(data: seq<Job>): seq<Action> {
    [SetLoading(true), SetJobs(data), SetLoading(false)]
  }

  /** The richer list loads only while the store holds no job. */
  function UltimateLoad(s: JobState, data: seq<Job>): (r: seq<Action>)
    ensures |s.jobs| == 0 <==> r == LoadSequence(data)
    ensures |s.jobs| > 0 <==> r == []
  {
    if |s.jobs| == 0 then LoadSequence(data) else []
  }

  /** The plain list loads once on mount, whatever the store holds: the loading flag goes
      up first, and from any state the dispatches end with the data stored and the flag
      down. */
  function PlainLoad(data: seq<Job>): (r: seq<Action>)
    ensures |r| == 3 && r[0] == SetLoading(true)
    ensures forall s: JobState :: ReduceAll(s, r) == s.(jobs := data, loading := false)
  {
    LoadsFromAnyState(data);
    LoadSequence(data)
  }

  lemma LoadsFromAnyState(data: seq<Job>)
    ensures forall s: JobState :: ReduceAll(s, LoadSequence(data)) == s.(jobs := data, loading := false)
  {
    forall s: JobState
      ensures ReduceAll(s, LoadSequence(data)) == s.(jobs := data, loading := false)
    {
      LoadSequenceEffect(s, data);
    }
  }

  /** A load stores the data, leaves the loading flag down and touches nothing else. */
  lemma LoadSequenceEffect(s: JobState, data: seq<Job>)
    ensures ReduceAll(s, LoadSequence(data)) == s.(jobs := data, loading := false)
    ensures Reduce(s, LoadSequence(data)[0]).loading
  {
    var acts := LoadSequence(data);
    assert acts[1..] == [SetJobs(data), SetLoading(false)];
    ReduceAllPair(Reduce(s, acts[0]), SetJobs(data), SetLoading(false));
  }

  /** The richer list shows a second mount with jobs present exactly the stored jobs, and
      loads the data into an empty store. */
  lemma UltimateLoadEffect(s: JobState, data: seq<Job>)
    ensures |s.jobs| > 0 ==> ReduceAll(s, UltimateLoad(s, data)) == s
    ensures |s.jobs| == 0 ==> ReduceAll(s, UltimateLoad(s, data)) == s.(jobs := data, loading := false)
  {
    LoadSequenceEffect(s, data);
  }

  /** "No jobs match your search for "<term>"" when a term is set, otherwise the
      filter message. */
  function UltimateEmptyMessage(term: string): (r: string)
    ensures term != "" ==> Contains(r, term)
    ensures term == "" ==> r == "No jobs match your current filters"
  {
    if term != "" then
      ContainsBasics(term);
      ContainsInExtension("No jobs match your search for \"", term, "\"", term);
      "No jobs match your search for \"" + term + "\""
    else "No jobs match your current filters"
  }

  /** The richer list: a spinner while loading; otherwise the count, the echoed term, and
      either the empty state or the cards. It never shows the store's error. */
  function UltimateScreen(s: JobState, term: string): (r: Screen)
    ensures s.loading <==> r.LoadingScreen?
    ensures !r.ErrorScreen?
    ensures r.ListScreen? ==> r.count == |r.cards| && r.cards == Query(s.jobs, term, s.filters, s.sortBy)
    ensures r.ListScreen? ==> (r.searchFor.Some? <==> term != "")
    ensures r.ListScreen? ==> (r.emptyMessage.Some? <==> r.cards == [])
  {
    if s.loading then LoadingScreen
    else
      var shown := Query(s.jobs, term, s.filters, s.sortBy);
      ListScreen(
        |shown|,
        if term != "" then Some(term) else None,
        if |shown| == 0 then Some(UltimateEmptyMessage(term)) else None,
        shown)
  }

  /** The plain list: a spinner while loading, then the error if it is a non-empty
      string, then the count and the empty message or the cards. */
  function PlainScreen(s: JobState, term: string): (r: Screen)
    ensures s.loading <==> r.LoadingScreen?
    ensures r.ErrorScreen? <==> !s.loading && s.error.Some? && s.error.value != ""
    ensures r.ErrorScreen? ==> r.message == "Error: " + s.error.value
    ensures r.ListScreen? ==> r.count == |r.cards| && r.cards == Query(s.jobs, term, s.filters, s.sortBy)
    ensures r.ListScreen? ==> r.searchFor.None?
    ensures r.ListScreen? ==> (r.emptyMessage == Some("No jobs match your criteria") <==> r.cards == [])
    ensures r.ListScreen? ==> (r.emptyMessage.None? <==> r.cards != [])
  {
    if s.loading then LoadingScreen
    else if s.error.Some? && s.error.value != "" then ErrorScreen("Error: " + s.error.value)
    else
      var shown := Query(s.jobs, term, s.filters, s.sortBy);
      ListScreen(|shown|, None, if |shown| == 0 then Some("No jobs match your criteria") else None, shown)
  }

  /** The heading's plural suffix: "Job" for exactly one result, "Jobs" otherwise. */
  function PluralSuffix(count: nat): (r: string)
    ensures r == "" <==> count == 1
  {
    if count != 1 then "s" else ""
  }

  /** The heading counts exactly the stored jobs the search and filters admit, with
      their multiplicity, and the empty state appears iff no stored job is admitted. */
  lemma ListCountsAdmittedJobs(s: JobState, term: string)
    requires !s.loading
    ensures var r := UltimateScreen(s, term);
      && r.ListScreen?
      && r.count == |Filter(s.jobs, AdmitsTest(term, s.filters))|
      && (r.emptyMessage.Some? <==> forall k :: 0 <= k < |s.jobs| ==> !Admits(s.jobs[k], term, s.filters))
  {
    var r := UltimateScreen(s, term);
    QueryIsFilteredPermutation(s.jobs, term, s.filters, s.sortBy);
    var kept := Filter(s.jobs, AdmitsTest(term, s.filters));
    assert |multiset(r.cards)| == |multiset(kept)|;
    if r.emptyMessage.None? {
      var x := r.cards[0];
      assert x in s.jobs && Admits(x, term, s.filters);
      var k :| 0 <= k < |s.jobs| && s.jobs[k] == x;
    } else {
      forall k | 0 <= k < |s.jobs| ensures !Admits(s.jobs[k], term, s.filters) {
        assert s.jobs[k] !in r.cards;
      }
    }
  }

  /** A stored error that is the empty string is falsy: the plain list shows the results
      as if there were no error. */
  lemma EmptyErrorIsIgnored(s: JobState, term: string)
    requires !s.loading && s.error == Some("")
    ensures PlainScreen(s, term) == PlainScreen(s.(error := None), term)
  {
  }

  /** The two screens show the same cards whenever neither is loading nor in error. */
  lemma ScreensAgreeOnCards(s: JobState, term: string)
    requires !s.loading && (s.error.None? || s.error == Some(""))
    ensures UltimateScreen(s, term).cards == PlainScreen(s, term).cards
    ensures UltimateScreen(s, term).count == PlainScreen(s, term).count
  {
  }
}
