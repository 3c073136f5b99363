/** The global store: the reducer over all actions, its initial state, and the frame
    facts that say each action touches one field of the state. */
module JobContext {
  import opened Types
  import opened Seqs

  /** The fields of `JobState`, named so that lemmas can say which ones an action leaves alone. */
  datatype Field =
    | JobsField | SavedJobsField | LoadingField | ErrorField | SearchTermField | FiltersField
    | SortByField | SelectedJobField | AIResponseField | AILoadingField | UserField
    | AuthenticatedField | CurrentPageField

  /** `s` and `t` hold the same value in field `f`. */
  predicate Agree(s: JobState, t: JobState, f: Field) {
    match f
    case JobsField => s.jobs == t.jobs
    case SavedJobsField => s.savedJobs == t.savedJobs
    case LoadingField => s.loading == t.loading
    case ErrorField => s.error == t.error
    case SearchTermField => s.searchTerm == t.searchTerm
    case FiltersField => s.filters == t.filters
    case SortByField => s.sortBy == t.sortBy
    case SelectedJobField => s.selectedJob == t.selectedJob
    case AIResponseField => s.aiResponse == t.aiResponse
    case AILoadingField => s.aiLoading == t.aiLoading
    case UserField => s.user == t.user
    case AuthenticatedField => s.isAuthenticated == t.isAuthenticated
    case CurrentPageField => s.currentPage == t.currentPage
  }

  /** States agreeing on every field are equal. */
  lemma AgreeEverywhere(s: JobState, t: JobState)
    requires forall f :: Agree(s, t, f)
    ensures s == t
  {
    assert Agree(s, t, JobsField) && Agree(s, t, SavedJobsField) && Agree(s, t, LoadingField);
    assert Agree(s, t, ErrorField) && Agree(s, t, SearchTermField) && Agree(s, t, FiltersField);
    assert Agree(s, t, SortByField) && Agree(s, t, SelectedJobField) && Agree(s, t, AIResponseField);
    assert Agree(s, t, AILoadingField) && Agree(s, t, UserField) && Agree(s, t, AuthenticatedField);
    assert Agree(s, t, CurrentPageField);
  }

  /** The field an action is meant to write, if any. */
  function Target(a: Action): Option<Field> {
    match a
    case SetJobs(_) => Some(JobsField)
    case SetLoading(_) => Some(LoadingField)
    case SetError(_) => Some(ErrorField)
    case SetSearch(_) => Some(SearchTermField)
    case SaveJob(_) => Some(SavedJobsField)
    case UnsaveJob(_) => Some(SavedJobsField)
    case SetFilters(_) => Some(FiltersField)
    case SetSort(_) => Some(SortByField)
    case SetSelectedJob(_) => Some(SelectedJobField)
    case SetAIResponse(_) => Some(AIResponseField)
    case SetAILoading(_) => Some(AILoadingField)
    case SetUser(_) => Some(UserField)
    case SetAuthenticated(_) => Some(AuthenticatedField)
    case SetCurrentPage(_) => Some(CurrentPageField)
    case UnknownAction(_) => None
  }

  /** `{ ...filters, ...patch }`: the fields present in the patch overwrite. */
  function MergeFilters(f: Filters, p: FilterPatch): (r: Filters)
    ensures p.jobType.None? ==> r.jobType == f.jobType
    ensures p.experience.None? ==> r.experience == f.experience
    ensures p.location.None? ==> r.location == f.location
    ensures p.salaryRange.None? ==> r.salaryRange == f.salaryRange
    ensures p.jobType.Some? ==> r.jobType == p.jobType.value
    ensures p.experience.Some? ==> r.experience == p.experience.value
    ensures p.location.Some? ==> r.location == p.location.value
    ensures p.salaryRange.Some? ==> r.salaryRange == p.salaryRange.value
  {
    Filters(
      if p.jobType.Some? then p.jobType.value else f.jobType,
      if p.experience.Some? then p.experience.value else f.experience,
      if p.location.Some? then p.location.value else f.location,
      if p.salaryRange.Some? then p.salaryRange.value else f.salaryRange)
  }

  /** The predicate `UNSAVE_JOB` keeps: a different id. */
  function KeepOtherIds(id: int): Job -> bool {
    (job: Job) => job.id != id
  }

  /** `jobReducer`: the next state after one action. */
  function Reduce(s: JobState, a: Action): JobState {
    match a
    case SetJobs(jobs) => s.(jobs := jobs)
    case SetLoading(b) => s.(loading := b)
    case SetError(e) => s.(error := e)
    case SetSearch(t) => s.(searchTerm := t)
    case SaveJob(job) => s.(savedJobs := s.savedJobs + [job])
    case UnsaveJob(id) => s.(savedJobs := Filter(s.savedJobs, KeepOtherIds(id)))
    case SetFilters(p) => s.(filters := MergeFilters(s.filters, p))
    case SetSort(sort) => s.(sortBy := sort)
    case SetSelectedJob(j) => s.(selectedJob := j)
    case SetAIResponse(r) => s.(aiResponse := r)
    case SetAILoading(b) => s.(aiLoading := b)
    case SetUser(u) => s.(user := u)
    case SetAuthenticated(b) => s.(isAuthenticated := b)
    case SetCurrentPage(p) => s.(currentPage := p)
    case UnknownAction(_) => s
  }

  /** A sequence of dispatches, applied in order. */
  function ReduceAll(s: JobState, actions: seq<Action>): JobState
    decreases |actions|
  {
    if |actions| == 0 then s else ReduceAll(Reduce(s, actions[0]), actions[1..])
  }

  /** Dispatching `a` then `b` is dispatching `a` and then the rest. */
  lemma {:induction false} ReduceAllAppend(s: JobState, xs: seq<Action>, ys: seq<Action>)
    ensures ReduceAll(s, xs + ys) == ReduceAll(ReduceAll(s, xs), ys)
    decreases |xs|
  {
    if |xs| > 0 {
      assert (xs + ys)[1..] == xs[1..] + ys;
      ReduceAllAppend(Reduce(s, xs[0]), xs[1..], ys);
    } else {
      assert xs + ys == ys;
    }
  }

  /** The state the provider starts from. */
  const InitialState: JobState := JobState(
    [], [], false, None, "",
    Filters("", "", "", ""),
    Sort(PostedDate, Desc),
    None, None, false, None, false, "home")

  /** Every action changes at most its own field; every other field is left as it was. */
  lemma ReduceFrame(s: JobState, a: Action)
    ensures forall f :: Target(a) != Some(f) ==> Agree(s, Reduce(s, a), f)
  {
  }

  /** An action of unknown type returns the state unchanged. */
  lemma UnknownActionIsIdentity(s: JobState, kind: string)
    ensures Reduce(s, UnknownAction(kind)) == s
  {
    ReduceFrame(s, UnknownAction(kind));
    AgreeEverywhere(s, Reduce(s, UnknownAction(kind)));
  }

  /** `SAVE_JOB` appends its payload at the end, without a duplicate check: the saved
      list always grows by exactly one. */
  lemma SaveJobAppends(s: JobState, job: Job)
    ensures var t := Reduce(s, SaveJob(job));
      |t.savedJobs| == |s.savedJobs| + 1 && t.savedJobs[|s.savedJobs|] == job
      && t.savedJobs[..|s.savedJobs|] == s.savedJobs
  {
  }

  /** Dropping the jobs with one id from a list: none is left, every other job keeps its
      multiplicity, and a list without the id is returned unchanged. */
  lemma KeepOtherIdsFilter(saved: seq<Job>, id: int)
    ensures var r := Filter(saved, KeepOtherIds(id));
      && (forall k :: 0 <= k < |r| ==> r[k].id != id)
      && (forall x :: multiset(r)[x] == if x.id != id then multiset(saved)[x] else 0)
      && ((forall k :: 0 <= k < |saved| ==> saved[k].id != id) ==> r == saved)
  {
    var p := KeepOtherIds(id);
    var r := Filter(saved, p);
    assert forall k :: 0 <= k < |r| ==> p(r[k]);
    FilterMultiset(saved, p);
    if forall k :: 0 <= k < |saved| ==> saved[k].id != id {
      assert forall k :: 0 <= k < |saved| ==> p(saved[k]);
      FilterKeepsAll(saved, p);
    }
  }

  /** `UNSAVE_JOB` removes every saved job with the id, keeps every other one, with its
      multiplicity and in order; an id that is not saved leaves the list unchanged. */
  lemma UnsaveJobRemovesId(s: JobState, id: int)
    ensures var t := Reduce(s, UnsaveJob(id));
      && (forall k :: 0 <= k < |t.savedJobs| ==> t.savedJobs[k].id != id)
      && (forall x :: multiset(t.savedJobs)[x] == if x.id != id then multiset(s.savedJobs)[x] else 0)
      && ((forall k :: 0 <= k < |s.savedJobs| ==> s.savedJobs[k].id != id) ==> t.savedJobs == s.savedJobs)
  {
    assert Reduce(s, UnsaveJob(id)).savedJobs == Filter(s.savedJobs, KeepOtherIds(id));
    KeepOtherIdsFilter(s.savedJobs, id);
  }

  /** Two dispatches in a row. */
  lemma ReduceAllPair(s: JobState, a: Action, b: Action)
    ensures ReduceAll(s, [a, b]) == Reduce(Reduce(s, a), b)
  {
    var acts := [a, b];
    assert acts[1..] == [b];
    calc {
      ReduceAll(s, acts);
      ReduceAll(Reduce(s, a), [b]);
      { assert [b][1..] == []; }
      ReduceAll(Reduce(Reduce(s, a), b), []);
    }
  }

  /** Saving a job whose id is not yet saved and then unsaving that id restores the saved
      list exactly. */
  lemma SaveThenUnsaveRestores(s: JobState, job: Job)
    requires forall k :: 0 <= k < |s.savedJobs| ==> s.savedJobs[k].id != job.id
    ensures ReduceAll(s, [SaveJob(job), UnsaveJob(job.id)]) == s
  {
    var p := KeepOtherIds(job.id);
    FilterConcat(s.savedJobs, [job], p);
    FilterKeepsAll(s.savedJobs, p);
    assert Filter([job], p) == [];
    assert Filter(s.savedJobs + [job], p) == s.savedJobs;
    ReduceAllPair(s, SaveJob(job), UnsaveJob(job.id));
  }

  /** Two patches as one: a field takes the later patch's value when it has one, else
      the earlier patch's. */
  function CombinePatches(p: FilterPatch, q: FilterPatch): FilterPatch {
    FilterPatch(
      if q.jobType.Some? then q.jobType else p.jobType,
      if q.experience.Some? then q.experience else p.experience,
      if q.location.Some? then q.location else p.location,
      if q.salaryRange.Some? then q.salaryRange else p.salaryRange)
  }

  /** Two `SET_FILTERS` dispatches act as one whose payload holds both, the later one
      winning where both set a field; an empty payload changes nothing. */
  lemma SetFiltersCompose(s: JobState, p: FilterPatch, q: FilterPatch)
    ensures Reduce(Reduce(s, SetFilters(p)), SetFilters(q)) == Reduce(s, SetFilters(CombinePatches(p, q)))
    ensures Reduce(s, SetFilters(FilterPatch(None, None, None, None))) == s
  {
  }

  /** Every action except `SAVE_JOB` is idempotent: dispatching it twice is dispatching it once. */
  lemma IdempotentExceptSave(s: JobState, a: Action)
    requires !a.SaveJob?
    ensures Reduce(Reduce(s, a), a) == Reduce(s, a)
  {
    if a.UnsaveJob? {
      var once := Filter(s.savedJobs, KeepOtherIds(a.id));
      FilterKeepsAll(once, KeepOtherIds(a.id));
    }
  }

  /** `SAVE_JOB` is not idempotent: a second dispatch adds a second copy. */
  lemma SaveJobNotIdempotent(s: JobState, job: Job)
    ensures Reduce(Reduce(s, SaveJob(job)), SaveJob(job)) != Reduce(s, SaveJob(job))
  {
    assert |Reduce(Reduce(s, SaveJob(job)), SaveJob(job)).savedJobs| == |s.savedJobs| + 2;
  }

  /** The initial state: no jobs, nothing saved, no filter, newest first, on the home page,
      signed out, with nothing selected or loading. */
  lemma InitialStateIsBlank()
    ensures InitialState.jobs == [] && InitialState.savedJobs == []
    ensures InitialState.filters == Filters("", "", "", "") && InitialState.searchTerm == ""
    ensures InitialState.sortBy == Sort(PostedDate, Desc)
    ensures InitialState.currentPage == "home" && !InitialState.isAuthenticated && InitialState.user.None?
    ensures InitialState.selectedJob.None? && InitialState.aiResponse.None?
    ensures !InitialState.loading && !InitialState.aiLoading && InitialState.error.None?
  {
  }
}
