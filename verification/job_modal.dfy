/** The job detail modal: opening it from a card, closing it, the insight request it
    makes while open, and its own save button. */
module JobModal {
  import opened Types
  import opened JobContext
  import opened JobCards

  /** Clicking a card selects its job, which opens the modal. */
  function OpenCard(job: Job): (a: Action)
    ensures Target(a) == Some(SelectedJobField)
  {
    SetSelectedJob(Some(job))
  }

  /** Closing dispatches: clear the selection, then clear the insights. */
  function CloseActions(): seq<Action> {
    [SetSelectedJob(None), SetAIResponse(None)]
  }

  /** Closing clears the selection and the insights and changes nothing else. */
  lemma CloseClearsSelection(s: JobState)
    ensures ReduceAll(s, CloseActions()) == s.(selectedJob := None, aiResponse := None)
  {
    ReduceAllPair(s, SetSelectedJob(None), SetAIResponse(None));
  }

  /** Opening a card and closing the modal again leaves every field but the insights as
      it was before the click (the selection had been empty). */
  lemma OpenThenCloseRestores(s: JobState, job: Job)
    requires s.selectedJob.None? && s.aiResponse.None?
    ensures ReduceAll(Reduce(s, OpenCard(job)), CloseActions()) == s
  {
    CloseClearsSelection(Reduce(s, OpenCard(job)));
  }

  /** The effect requests insights while a job is selected, no insights are present and
      none are being generated. */
  predicate WantsInsights(s: JobState) {
    s.selectedJob.Some? && s.aiResponse.None? && !s.aiLoading
  }

  /** A click selects the job and nothing else; from a state without insights and not
      generating, the modal then requests insights. */
  lemma OpenCardRequestsInsights(s: JobState, job: Job)
    ensures Reduce(s, OpenCard(job)) == s.(selectedJob := Some(job))
    ensures s.aiResponse.None? && !s.aiLoading ==> WantsInsights(Reduce(s, OpenCard(job)))
    ensures !WantsInsights(ReduceAll(s, CloseActions()))
  {
    CloseClearsSelection(s);
  }

  /** What `generateAIInsights` dispatches before it awaits the service: the loading flag
      goes up, provided a job is selected. */
  function BeginGenerate(s: JobState): (r: seq<Action>)
    ensures s.selectedJob.None? <==> r == []
    ensures r != [] ==> r == [SetAILoading(true)]
  {
    if s.selectedJob.None? then [] else [SetAILoading(true)]
  }

  /** What it dispatches once the service call settles, whatever the state is by then:
      the insights when the call delivered them (`Some`), nothing when it threw (`None`),
      and the loading flag goes down in either case. */
  function FinishGenerate(outcome: Option<AIResponse>): (r: seq<Action>)
    ensures |r| >= 1 && r[|r| - 1] == SetAILoading(false)
    ensures SetAIResponse(outcome) in r <==> outcome.Some?
    ensures forall a :: a in r ==> a == SetAIResponse(outcome) || a == SetAILoading(false)
  {
    if outcome.Some? then [SetAIResponse(outcome), SetAILoading(false)] else [SetAILoading(false)]
  }

  /** The dispatches of one generation with nothing dispatched in between. `outcome` is
      what the service call delivered: `Some(insights)`, or `None` when the call threw.
      Nothing happens without a selected job. */
  function GenerateInsights(s: JobState, outcome: Option<AIResponse>): (r: seq<Action>)
    ensures s.selectedJob.None? <==> r == []
    ensures r != [] ==> r[0] == SetAILoading(true) && r[|r| - 1] == SetAILoading(false)
    ensures SetAIResponse(outcome) in r <==> s.selectedJob.Some? && outcome.Some?
  {
    if s.selectedJob.None? then [] else BeginGenerate(s) + FinishGenerate(outcome)
  }

  /** Closing the modal while the call is pending does not cancel it. When the user
      closes the modal on job `a` and opens job `b` before the insights for `a` arrive,
      those insights are stored and shown for `b`, and the modal does not ask for `b`'s
      own. */
  lemma StaleInsightsAfterClose(s: JobState, b: Job, insights: AIResponse)
    requires WantsInsights(s)
    ensures var t := ReduceAll(s, BeginGenerate(s) + CloseActions() + [OpenCard(b)] + FinishGenerate(Some(insights)));
      && t == s.(selectedJob := Some(b), aiResponse := Some(insights))
      && Render(t) == Shown(b, IsSaved(s.savedJobs, b))
      && !WantsInsights(t)
  {
    var s1 := Reduce(s, SetAILoading(true));
    var s2 := s1.(selectedJob := None, aiResponse := None);
    var s3 := Reduce(s2, OpenCard(b));
    assert ReduceAll(s, [SetAILoading(true)]) == s1 by {
      assert [SetAILoading(true)][1..] == [];
    }
    assert ReduceAll(s2, [OpenCard(b)]) == s3 by {
      assert [OpenCard(b)][1..] == [];
    }
    CloseClearsSelection(s1);
    ReduceAllPair(s3, SetAIResponse(Some(insights)), SetAILoading(false));
    ReduceAllAppend(s, BeginGenerate(s), CloseActions());
    ReduceAllAppend(s, BeginGenerate(s) + CloseActions(), [OpenCard(b)]);
    ReduceAllAppend(s, BeginGenerate(s) + CloseActions() + [OpenCard(b)], FinishGenerate(Some(insights)));
  }

  /** With a job selected, generation ends with the loading flag down whether or not the
      call failed; a success stores the insights, a failure leaves them as they were, and
      no other field changes. */
  lemma GenerateInsightsEffect(s: JobState, outcome: Option<AIResponse>)
    requires s.selectedJob.Some?
    ensures var t := ReduceAll(s, GenerateInsights(s, outcome));
      t == s.(aiLoading := false, aiResponse := if outcome.Some? then outcome else s.aiResponse)
  {
    var acts := GenerateInsights(s, outcome);
    if outcome.Some? {
      assert acts == [SetAILoading(true), SetAIResponse(outcome), SetAILoading(false)];
      assert acts[1..] == [SetAIResponse(outcome), SetAILoading(false)];
      ReduceAllPair(Reduce(s, acts[0]), SetAIResponse(outcome), SetAILoading(false));
    } else {
      assert acts == [SetAILoading(true), SetAILoading(false)];
      ReduceAllPair(s, SetAILoading(true), SetAILoading(false));
    }
  }

  /** Without a selected job, generation dispatches nothing and the state stays. */
  lemma GenerateWithoutSelectionIsNoOp(s: JobState, outcome: Option<AIResponse>)
    requires s.selectedJob.None?
    ensures ReduceAll(s, GenerateInsights(s, outcome)) == s
  {
  }

  /** A successful request satisfies the guard: the effect does not ask again. A failed
      one leaves the guard true, so the effect asks again. */
  lemma GuardAfterGeneration(s: JobState, outcome: Option<AIResponse>)
    requires WantsInsights(s)
    ensures WantsInsights(ReduceAll(s, GenerateInsights(s, outcome))) <==> outcome.None?
  {
    GenerateInsightsEffect(s, outcome);
  }

  /** What the modal shows: nothing, or the selected job with its saved flag. */
  datatype ModalView = Hidden | Shown(job: Job, saved: bool)

  function Render(s: JobState): (r: ModalView)
    ensures r.Hidden? <==> s.selectedJob.None?
    ensures r.Shown? ==> r.job == s.selectedJob.value && (r.saved <==> IsSaved(s.savedJobs, r.job))
  {
    if s.selectedJob.None? then Hidden
    else Shown(s.selectedJob.value, IsSaved(s.savedJobs, s.selectedJob.value))
  }

  /** The modal's save button, present only while it is shown: the same toggle as a card's. */
  function ModalToggle(s: JobState): (a: Option<Action>)
    ensures a.None? <==> Render(s).Hidden?
    ensures a.Some? ==> a.value == SaveToggle(s, s.selectedJob.value)
  {
    if s.selectedJob.None? then None else Some(SaveToggle(s, s.selectedJob.value))
  }

  /** Pressing the modal's button flips the saved flag it shows, and leaves the modal open
      on the same job. */
  lemma ModalToggleFlipsShownFlag(s: JobState)
    requires s.selectedJob.Some?
    ensures var t := Reduce(s, ModalToggle(s).value);
      && Render(t).Shown? && Render(t).job == Render(s).job
      && (Render(t).saved <==> !Render(s).saved)
  {
    ToggleFlipsSaved(s, s.selectedJob.value);
  }
}
