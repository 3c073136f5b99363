# Job board model

This project models the logic of a client-side job board written with React. Most of the
application draws screens and runs animations. Under that sits a set of small, sequential
computations over in-memory records, and those are what the model covers:

- the global store: its reducer over every action and its initial state;
- the job query pipeline that both job lists run: search, four filters, a salary bucket
  and a single-key sort;
- the job cards and the job modal: the save toggle, the skill-match percentage and its
  badges, description excerpts and skill chips, and the modal's close and insight steps;
- the sign-in / sign-up validation and the user it builds;
- the profile page: skill parsing and formatting, saving, and the resume upload checks;
- the sample-data generator;
- the deterministic part of the AI service: JSON span search, fallback insights and
  keyword-chosen fallback advice;
- the filter panels' helpers and the chat assistant's send machine.

Each source concern is one module:

| module | models |
|---|---|
| `Types` | records, filters, sort selection, store state and actions |
| `Seqs` | order-preserving filter, reversal |
| `Strings` | lowercasing, `includes`, `trim`, one-character `split`, `join`, digit runs, UTF-16 code units, string order |
| `JobContext` | the reducer |
| `JobQuery` | the pipeline and its sort |
| `JobLists` | the two list screens |
| `JobCards` | the three job cards |
| `JobModal` | the job modal |
| `AuthPage` | the sign-in / sign-up form |
| `ProfilePage` | the profile page |
| `JobsData` | the sample data |
| `GeminiService` | the AI service's fallback logic |
| `FilterPanels` | the three filter panels |
| `AIChatbot` | the chat assistant |

Everything is a pure function over immutable datatypes. The clock, random draws and
remote replies are parameters:

- the per-day job counts are random draws in [0, 1);
- the days' dates are a sequence of strings;
- the remote model's reply is an `Option<string>`, `None` when the call failed;
- `JSON.parse` is a function parameter returning `None` where it throws.

JavaScript's `NaN` is `None` wherever a number can be `NaN`: the salary key, the date key
and the skill match of a job without skills. `Array.prototype.sort` is modelled as an
insertion sort driven by the page's own comparator.

A Dafny string is a sequence of Unicode characters, while a JavaScript string is a
sequence of UTF-16 code units: a character beyond U+FFFF is two units. Where the
application counts, cuts or compares strings, the model works on the code units
(`Strings.Utf16`). The password's `length` counts units, and the description excerpts
are unit sequences. String `<` is stated character by character and proved equal to the
comparison of the units (`Strings.StrLessIsUnitOrder`).

The sample data's tables are a parameter `Tables`. The constant `SampleTables` holds the
values written in the code, and the lemmas that depend on particular entries require those
entries.

The salary filter reads a salary by concatenating every digit in its text. The bucket
names place "$120,000 - $160,000" in "120k-160k". The code turns it into
120000160000, which lies only in "300k+". The model follows the code
(`JobQuery.RangeSalaryOnlyTopBucket`, `JobsData.GeneratedSalaryOnlyTopBucket`).

## Model

| member | source | states |
|---|---|---|
| JobContext.MergeFilters | src/JobContext.tsx:31-35 | each filter field present in the patch is overwritten with the patch's value; each absent field keeps the old value |
| JobContext.ReduceFrame | src/JobContext.tsx:11-53 | every action leaves every field of the state other than its own target field unchanged |
| JobContext.UnknownActionIsIdentity | src/JobContext.tsx:50-51 | an action of an unrecognised type returns the state unchanged |
| JobContext.SaveJobAppends | src/JobContext.tsx:21-25 | SAVE_JOB grows the saved list by exactly one, the payload at the end, the old list as its prefix, with no duplicate check |
| JobContext.KeepOtherIdsFilter | src/JobContext.tsx:26-30 | dropping one id leaves no job with that id, keeps every other job with its multiplicity, and returns a list without the id unchanged |
| JobContext.UnsaveJobRemovesId | src/JobContext.tsx:26-30 | UNSAVE_JOB removes every saved job with the id, keeps all others with their multiplicities, and leaves a list without that id unchanged |
| JobContext.ReduceAllAppend | src/JobContext.tsx:11-53 | dispatching two sequences of actions one after the other equals dispatching their concatenation |
| JobContext.ReduceAllPair | src/JobContext.tsx:11-53 | dispatching two actions as a sequence applies the reducer twice in order |
| JobContext.SaveThenUnsaveRestores | src/JobContext.tsx:21-30 | saving a job whose id is not saved and then unsaving that id gives back the original state |
| JobContext.SetFiltersCompose | src/JobContext.tsx:31-35 | two SET_FILTERS act as one whose payload has both, the later winning on a shared field; an empty payload changes nothing |
| JobContext.IdempotentExceptSave | src/JobContext.tsx:13-51 | every action other than SAVE_JOB gives the same state dispatched twice as once |
| JobContext.SaveJobNotIdempotent | src/JobContext.tsx:21-25 | a second SAVE_JOB of the same job yields a different state (a second copy) |
| JobContext.InitialStateIsBlank | src/JobContext.tsx:55-77 | the initial state has no jobs, nothing saved, empty filters and search, sort by date descending, the home page, no user and nothing loading |
| JobContext.AgreeEverywhere | src/types.ts:57-71 | two states that agree on every named field are equal, so the field list covers the whole state |
| JobQuery.SalaryKey | src/components/ui/UltimateJobList.tsx:54 | the key is absent (NaN) exactly when the salary text has no digit; otherwise it is the number that the text's digits, kept in order, denote |
| JobQuery.BucketsPartition | src/components/ui/UltimateJobList.tsx:52-65 | the six buckets are pairwise disjoint and cover every numeric key; a NaN key is in none; an unrecognised bucket admits every key |
| JobQuery.ApplyStageIsFilter | src/components/ui/UltimateJobList.tsx:35-65 | each guarded pipeline step equals an order-preserving filter by "step inactive or job passes it" |
| JobQuery.RunStagesIsFilter | src/components/ui/UltimateJobList.tsx:32-65 | running the steps in any sequence equals one order-preserving filter by their conjunction |
| JobQuery.PassesAllIsAdmits | src/components/ui/UltimateJobList.tsx:35-65 | a job passes all five steps iff the reference predicate admits it: the search hit for a non-empty term, exact type and experience, case-sensitive location substring, the salary bucket |
| JobQuery.StageOrderIrrelevant | src/components/JobList.tsx:30-61 | the result set is the same for every order of the steps that contains all of them |
| JobQuery.SourceOrderHasEveryStage | src/components/ui/UltimateJobList.tsx:35-65 | the source's order of steps contains every step |
| JobQuery.DateKey | src/components/JobList.tsx:76-79 | a date text parses exactly when it is YYYY-MM-DD naming a day of the calendar (month 1-12, day within the month's length); the key gives back its year, month and day |
| JobQuery.DaysInMonth | src/components/JobList.tsx:77-78 | every month has 28 to 31 days, and February has 29 exactly in a Gregorian leap year |
| JobQuery.DateKeyOrderIsCalendarOrder | src/components/JobList.tsx:76-92 | of two calendar dates, the smaller key belongs to the earlier day |
| JobQuery.DateKeyOrderIsTextOrder | src/components/JobList.tsx:76-92 | of two calendar dates, the smaller key belongs to the date text that sorts first as a string |
| JobQuery.LeapDayExamples | src/components/JobList.tsx:77-78 | 2024-02-29 parses; 2023-02-29 and 2024-02-30 are invalid dates |
| JobQuery.Compare | src/components/JobList.tsx:64-93 | the comparator answers 0 exactly for an unrecognised field, otherwise 1 or -1, never 0 even on equal keys; ascending it answers 1 iff `a`'s key is greater than `b`'s, descending iff it is less |
| JobQuery.Insert | src/components/ui/UltimateJobList.tsx:67-96 | one insertion step of the sort lengthens the list by exactly one |
| JobQuery.InsertMultiset | src/components/ui/UltimateJobList.tsx:67-96 | inserting adds one occurrence of the entry and keeps every other occurrence |
| JobQuery.InsertionSortMultiset | src/components/ui/UltimateJobList.tsx:67-96 | the insertion sort returns a permutation of its input |
| JobQuery.SortJobs | src/components/ui/UltimateJobList.tsx:67-96 | sorting returns a permutation of its input |
| JobQuery.GreaterIrreflexive | src/components/JobList.tsx:88-92 | JavaScript's `>` on keys of one kind never holds between a key and itself |
| JobQuery.GreaterAsymmetric | src/components/JobList.tsx:88-92 | `>` on keys never holds in both directions |
| JobQuery.GreaterTransitive | src/components/JobList.tsx:88-92 | `>` on keys is transitive |
| JobQuery.GreaterTotal | src/components/JobList.tsx:67-92 | two different non-NaN keys of a recognised field are ordered one way or the other |
| JobQuery.NotAfterTransitive | src/components/JobList.tsx:64-93 | on non-NaN keys, "the comparator does not place x after y" is transitive |
| JobQuery.AfterIsAsymmetric | src/components/JobList.tsx:64-93 | if the comparator places x after y it does not place y after x |
| JobQuery.PermutationComparable | src/components/JobList.tsx:64-93 | a permutation of a list without NaN keys has no NaN key |
| JobQuery.SortedCons | src/components/JobList.tsx:64-93 | prepending an entry the comparator places before every other entry keeps a list sorted |
| JobQuery.InsertFrom | src/components/JobList.tsx:64-93 | every entry after an insertion is the inserted entry or came from the list |
| JobQuery.InsertSorted | src/components/JobList.tsx:64-93 | inserting a comparable entry into a sorted comparable list keeps it sorted |
| JobQuery.SortJobsSorted | src/components/ui/UltimateJobList.tsx:67-96 | with no NaN key, the sorted output never has an entry the comparator places after a later one |
| JobQuery.IndifferentComparatorKeepsOrder | src/components/JobList.tsx:84-85 | a comparator that always answers 0 leaves the list in its order |
| JobQuery.UnknownFieldKeepsOrder | src/components/JobList.tsx:84-85 | sorting by a field outside the four cases leaves the filtered order unchanged |
| JobQuery.SortedDistinctIsStrict | src/components/JobList.tsx:88-92 | a sorted permutation of a list with distinct comparable keys strictly increases (asc) or strictly decreases (desc) |
| JobQuery.AscendingHeadsAgree | src/components/JobList.tsx:88-92 | two non-empty strictly ascending lists with the same entries start with the same entry |
| JobQuery.StrictlyAscendingUnique | src/components/JobList.tsx:88-92 | two strictly ascending lists with the same entries are equal |
| JobQuery.AscendingTail | src/components/JobList.tsx:88-92 | the tail of a strictly ascending list is strictly ascending |
| JobQuery.ReverseOfDescending | src/components/JobList.tsx:88-92 | reversing a strictly descending list gives a strictly ascending one |
| JobQuery.AscendingIsReversedDescending | src/components/ui/UltimateJobList.tsx:67-96 | with distinct non-NaN keys, ascending output strictly increases, descending strictly decreases, and each is the reverse of the other |
| JobQuery.QueryIsFilteredPermutation | src/components/ui/UltimateJobList.tsx:32-98 | the output is a permutation of exactly the admitted input jobs: a job appears iff it is in the input and admitted, as often as in the input |
| JobQuery.QuerySorted | src/components/ui/UltimateJobList.tsx:67-96 | when no admitted job has a NaN key, the output is sorted by the comparator |
| JobQuery.UnconstrainedQueryShowsAll | src/components/JobList.tsx:26-47 | an empty search with empty filters returns a permutation of all stored jobs, of the same length |
| JobQuery.AbsentTermYieldsNothing | src/components/JobList.tsx:30-36 | a term found case-insensitively in no title, company or skill yields no job |
| JobQuery.LocationFilterAlone | src/components/ui/UltimateJobList.tsx:49-51 | the location filter alone keeps exactly the jobs whose location contains the text case-sensitively, and everything when it is empty |
| JobQuery.SearchIsCaseInsensitiveSubstring | src/components/ui/UltimateJobList.tsx:35-41 | a search for "React" hits a job listing the skill "React Native" |
| JobQuery.SalaryRangeDigits | src/components/ui/UltimateJobList.tsx:54 | the digits of "$lo,000 - $hi,000" are lo, three zeros, hi, three zeros |
| JobQuery.SalaryRangeKey | src/components/ui/UltimateJobList.tsx:54 | a range's key reads both bounds and their zeros as one concatenated number |
| JobQuery.RangeSalaryReadsAsConcatenation | src/components/ui/UltimateJobList.tsx:54 | "$120,000 - $160,000" reads as 120000160000 |
| JobQuery.LargeKeyOnlyTopBucket | src/components/ui/UltimateJobList.tsx:55-61 | every key of at least 300000 is in "300k+" and in no other bucket |
| JobQuery.RangeSalaryOnlyTopBucket | src/components/ui/UltimateJobList.tsx:54-61 | "$120,000 - $160,000" lies only in "300k+", not in "120k-160k" |
| JobQuery.InsertAfter | src/components/JobList.tsx:64-93 | an entry the comparator places after every entry of a list moves to its end |
| JobQuery.ThreeReversedBy | src/components/JobList.tsx:64-93 | three entries, each placed after every later one, come out in reverse order |
| JobQuery.ThreeReversed | src/components/JobList.tsx:64-93 | three jobs whose keys strictly decrease along the list come out reversed |
| JobQuery.DateKeyOfFirst | src/components/JobList.tsx:76-79 | the key of YYYY-MM-01 is year*10000 + month*100 + 1 |
| JobQuery.FirstOfMonthKeys | src/components/JobList.tsx:76-79 | the keys of 2024-01-01, 2024-02-01 and 2024-03-01 parse and strictly increase |
| JobQuery.DateDescendingExample | src/components/JobList.tsx:76-92 | sorting by posted date descending over 2024-01-01, 02-01, 03-01 yields 03-01, 02-01, 01-01 |
| JobLists.UltimateLoad | src/components/ui/UltimateJobList.tsx:17-30 | the richer list loads exactly when the store holds no job, and dispatches nothing otherwise |
| JobLists.PlainLoad | src/components/JobList.tsx:12-24 | the plain list loads whatever the store holds: the loading flag is raised first, and from every state the dispatches end with the data stored and the flag lowered |
| JobLists.LoadSequenceEffect | src/components/JobList.tsx:12-24 | a load first raises the loading flag, then stores the data with the flag down, changing nothing else |
| JobLists.UltimateLoadEffect | src/components/ui/UltimateJobList.tsx:17-30 | with jobs present the richer list leaves the store as it is; without, it stores the data with loading off |
| JobLists.UltimateEmptyMessage | src/components/ui/UltimateJobList.tsx:131-134 | with a term the empty message echoes it; without one it is the fixed filter message |
| JobLists.UltimateScreen | src/components/ui/UltimateJobList.tsx:140-180 | a spinner exactly while loading, never an error; otherwise the count equals the number of cards, which are the query's output; the term is echoed iff non-empty; the empty state shows iff there are no cards |
| JobLists.PlainScreen | src/components/JobList.tsx:98-120 | a spinner exactly while loading; the error screen iff a non-empty error is stored; otherwise the query's cards, their count, and "No jobs match your criteria" iff there are none |
| JobLists.PluralSuffix | src/components/ui/UltimateJobList.tsx:149 | the heading drops the plural exactly for a count of one |
| JobLists.ListCountsAdmittedJobs | src/components/ui/UltimateJobList.tsx:149-180 | the heading's count is the number of stored jobs the search and filters admit, with multiplicity, and the empty state shows iff no stored job is admitted |
| JobLists.EmptyErrorIsIgnored | src/components/JobList.tsx:107-109 | an empty stored error is falsy and shows the same screen as no error |
| JobLists.ScreensAgreeOnCards | src/components/JobList.tsx:26-96 | outside loading and errors, both lists show the same cards and count |
| JobCards.SaveToggle | src/components/ui/UltimateJobCard.tsx:29-38 | the button dispatches UNSAVE_JOB of the job's id iff some saved job has its id, and SAVE_JOB of the job otherwise |
| JobCards.ToggleFlipsSaved | src/components/JobCard.tsx:14-23 | pressing the button flips the card's saved flag |
| JobCards.ToggleKeepsIdsUnique | src/components/enhanced/EnhancedJobCard.tsx:23-32 | saving only through the toggle never puts two jobs with one id in the saved list |
| JobCards.DistinctIdsOnce | src/components/JobCard.tsx:14 | with unique ids every saved job occurs exactly once |
| JobCards.ToggleSavedJob | src/components/JobCard.tsx:16-23 | on a saved job the toggle removes its id from the saved list and changes nothing else |
| JobCards.ToggleUnsavedJob | src/components/JobCard.tsx:16-23 | on an unsaved job the toggle appends it to the saved list and changes nothing else |
| JobCards.DoubleToggleFromUnsaved | src/components/JobCard.tsx:16-23 | pressing the button twice on an unsaved job restores the state |
| JobCards.UnsaveUniqueRemovesOne | src/components/JobCard.tsx:16-23 | with unique ids, unsaving a saved job's id removes that one job and keeps every other one |
| JobCards.UnsaveThenSaveOne | src/components/JobCard.tsx:16-23 | with unique ids, unsaving one saved job leaves it unsaved, and saving it again gives back the same saved jobs as a multiset |
| JobCards.DoubleToggleFromSaved | src/components/JobCard.tsx:16-23 | pressing the button twice on a saved job keeps the same saved jobs, with that job moved to the end |
| JobCards.RelatedSymmetric | src/components/ui/UltimateJobCard.tsx:55-57 | the skill relation "one contains the other" is symmetric |
| JobCards.MatchCount | src/components/ui/UltimateJobCard.tsx:53-57 | the number of matching user skills is at most the number of user skills |
| JobCards.MatchCountPositive | src/components/ui/UltimateJobCard.tsx:53-57 | the match count is positive iff some user skill is related to some job skill |
| JobCards.RoundHalfUp | src/components/ui/UltimateJobCard.tsx:59 | the rounded quotient lies within one half of n/d, halves rounding up |
| JobCards.RoundAtLeast | src/components/ui/UltimateJobCard.tsx:59 | the rounded quotient reaches t iff n/d is at least t - 1/2 |
| JobCards.SkillMatch | src/components/ui/UltimateJobCard.tsx:50-62 | 0 without a user or without user skills; NaN exactly when a user with skills meets a job without skills; non-negative; positive only when some user skill matches |
| JobCards.PercentAtLeast | src/components/enhanced/EnhancedJobCard.tsx:43-55 | with skills on both sides, the percentage reaches t iff (2t-1) times the job's skill count is at most 200 times the match count |
| JobCards.BadgeIffSomeSkillMatches | src/components/enhanced/EnhancedJobCard.tsx:108 | the match badge shows iff there is a user, the job lists skills, some user skill matches, and there are at most 200 job skills per matching user skill |
| JobCards.HotIffMostSkillsMatch | src/components/ui/UltimateJobCard.tsx:64 | a job is hot iff at least 141 user skills match per 200 job skills |
| JobCards.AllMatchingExceedsHundred | src/components/ui/UltimateJobCard.tsx:59 | when every user skill matches, the percentage exceeds 100 iff the user lists enough more skills than the job |
| JobCards.NewJobWindow | src/components/ui/UltimateJobCard.tsx:63 | an invalid date is never new; a valid one is new for exactly seven days |
| JobCards.Excerpt | src/components/ui/UltimateJobCard.tsx:194-197 | a description of at most 120 code units is unchanged; a longer one is its first 120 units and "..."; on text in the Basic Multilingual Plane that is its first 120 characters and "..." |
| JobCards.ExcerptIdempotent | src/components/enhanced/EnhancedJobCard.tsx:145-149 | excerpting an excerpt changes nothing |
| JobCards.BriefExcerpt | src/components/JobCard.tsx:90 | the plain card shows the first min(length, 120) code units followed by "..." always; in the Basic Multilingual Plane, those are characters |
| JobCards.ExcerptsCompared | src/components/JobCard.tsx:90 | the two excerpts agree on long descriptions; on short ones the plain card adds "..." |
| JobCards.ExcerptSplitsSurrogatePair | src/components/ui/UltimateJobCard.tsx:194-197 | 119 letters and an emoji make 121 units, and the excerpt keeps only the emoji's high surrogate before "..." |
| JobCards.ChipRow | src/components/ui/UltimateJobCard.tsx:218-237 | a prefix of the skills is shown; the overflow chip appears iff there are more skills than the limit, and then the shown chips and its count add up to all skills |
| JobCards.ChipsAccountForAll | src/components/JobCard.tsx:98-103 | for any limit the chips and overflow count account for every skill |
| JobModal.OpenCard | src/components/ui/UltimateJobCard.tsx:40-43 | a card click dispatches an action targeting the selected job |
| JobModal.CloseClearsSelection | src/components/JobModal.tsx:12-16 | closing clears the selection and the insights and changes nothing else |
| JobModal.OpenThenCloseRestores | src/components/JobModal.tsx:12-16 | opening a card and closing the modal from a state with no selection restores the state |
| JobModal.OpenCardRequestsInsights | src/components/JobModal.tsx:32-36 | a click sets only the selection; it then wants insights when none are present or loading; after closing it never wants them |
| JobModal.BeginGenerate | src/components/JobModal.tsx:18-21 | before the call, loading is raised exactly when a job is selected, and nothing else is dispatched |
| JobModal.FinishGenerate | src/components/JobModal.tsx:23-29 | after the call, the result is stored iff the call succeeded and loading is lowered last in either case, nothing else dispatched |
| JobModal.GenerateInsights | src/components/JobModal.tsx:18-30 | with nothing dispatched during the call: nothing is dispatched without a selected job; otherwise loading is raised first and lowered last, and the result is stored iff the call succeeded |
| JobModal.StaleInsightsAfterClose | src/components/JobModal.tsx:12-36 | closing on job A and opening job B while A's call is pending leaves B shown with A's insights, loading off, and no request for B's own |
| JobModal.GenerateInsightsEffect | src/components/JobModal.tsx:18-30 | with a job selected, generation ends with loading off, the result stored on success, the old insights kept on failure, and no other field changed |
| JobModal.GenerateWithoutSelectionIsNoOp | src/components/JobModal.tsx:19 | without a selected job generation leaves the state unchanged |
| JobModal.GuardAfterGeneration | src/components/JobModal.tsx:32-36 | after a generation the effect asks again iff the call failed |
| JobModal.Render | src/components/JobModal.tsx:38-46 | the modal is hidden iff no job is selected; when shown it shows the selected job and whether it is saved |
| JobModal.ModalToggle | src/components/JobModal.tsx:48-54 | the modal's save button exists iff the modal is shown and dispatches the card's toggle |
| JobModal.ModalToggleFlipsShownFlag | src/components/JobModal.tsx:46-54 | pressing it flips the saved flag the modal shows and keeps the modal open |
| AuthPage.ValidEmailMatchesPattern | src/components/AuthPage.tsx:33-36 | every email the check accepts matches `^[^\s@]+@[^\s@]+\.[^\s@]+$` |
| AuthPage.PatternPassesValidEmail | src/components/AuthPage.tsx:33-36 | every string the pattern matches is accepted |
| AuthPage.ValidEmailIsPattern | src/components/AuthPage.tsx:33-36 | the check accepts exactly the strings the pattern matches |
| AuthPage.AcceptedEmailShape | src/components/AuthPage.tsx:33 | an accepted email has exactly one '@', no white space, text before the '@', and a '.' after it with text on both sides |
| AuthPage.Validate | src/components/AuthPage.tsx:33-51 | the first failing check in the order email, password length in UTF-16 code units, confirmation (sign-up), name (sign-up) is reported, each iff all earlier checks pass and it fails; none iff all pass |
| AuthPage.LoginIgnoresConfirmAndName | src/components/AuthPage.tsx:44-51 | signing in never depends on the confirmation or the name |
| AuthPage.PasswordBoundary | src/components/AuthPage.tsx:39-41 | with a valid email, a password of six code units passes the length check and one of five fails it |
| AuthPage.AstralPasswordPasses | src/components/AuthPage.tsx:39-41 | a password of three emoji is six code units long and passes the length check |
| AuthPage.NewUser | src/components/AuthPage.tsx:56-63 | the user keeps the email and id; its name is the entered one or else the text before the '@'; no skills, experience, location or resume |
| AuthPage.Submit | src/components/AuthPage.tsx:26-73 | a submission is rejected with the validation message iff a check fails; otherwise it dispatches SET_USER, SET_AUTHENTICATED true and SET_CURRENT_PAGE "profile" in that order |
| AuthPage.AcceptedUserHasName | src/components/AuthPage.tsx:56-63 | an accepted user's name is never empty; a fallback name is the part of the email before its '@' |
| AuthPage.BlankNameOnSignUp | src/components/AuthPage.tsx:49-51 | once the email and a password of at least 6 UTF-16 code units pass, a white-space name is rejected on sign-up and kept as typed on sign-in |
| AuthPage.AcceptedSignsIn | src/components/AuthPage.tsx:65-67 | a successful submission sets the user, signs in and opens the profile page, changing no other field |
| ProfilePage.CleanPieces | src/components/ProfilePage.tsx:33 | trimming and dropping empty pieces never lengthens the list |
| ProfilePage.CleanPiecesAreClean | src/components/ProfilePage.tsx:33 | pieces free of commas clean into non-empty, trimmed, comma-free skills |
| ProfilePage.TrimAll | src/components/ProfilePage.tsx:33 | every piece is trimmed, in order |
| ProfilePage.CleanPiecesIsTrimThenFilter | src/components/ProfilePage.tsx:33 | the one-pass cleaning equals trimming every piece and then keeping the non-empty ones in order |
| ProfilePage.ParseSkills | src/components/ProfilePage.tsx:33 | no parsed skill is empty, has a comma, or has white space at either end |
| ProfilePage.ParseWithoutComma | src/components/ProfilePage.tsx:33 | text without a comma parses to its trimmed self, or to nothing when blank |
| ProfilePage.ParsePaddedJoin | src/components/ProfilePage.tsx:15-33 | white space followed by clean skills joined with ", " parses back to those skills |
| ProfilePage.ParseFormatRoundTrip | src/components/ProfilePage.tsx:15-33 | formatting clean skills and parsing the text gives back the same list |
| ProfilePage.ParseIsStable | src/components/ProfilePage.tsx:15-33 | formatting a parse and parsing again changes nothing |
| ProfilePage.InitialForm | src/components/ProfilePage.tsx:9-16 | the form shows the user's name, email, location and experience, the desired role or "" when it is absent, and the skills joined by ", "; without a user every field is empty |
| ProfilePage.SaveProfile | src/components/ProfilePage.tsx:26-38 | saving sets name, location, experience and desired role from the form and only clean skills |
| ProfilePage.SaveKeepsIdentity | src/components/ProfilePage.tsx:27-34 | saving keeps id, email, picture and resume, and ignores the form's email |
| ProfilePage.SaveUntouchedForm | src/components/ProfilePage.tsx:9-38 | saving the untouched form gives back the user, when its skills are clean and a desired role is set |
| ProfilePage.UploadResume | src/components/ProfilePage.tsx:40-68 | nothing happens without a file; the type is refused iff it is not one of the three; a file of an accepted type over 5 MB is refused with the size message, and only then; the file is stored iff type and size pass, changing only the resume fields |
| ProfilePage.ResumeSizeBoundary | src/components/ProfilePage.tsx:52-55 | exactly 5,242,880 bytes is accepted and one byte more is refused |
| ProfilePage.TypeCheckedBeforeSize | src/components/ProfilePage.tsx:45-55 | a wrong type is reported as such even when the file is also too large |
| ProfilePage.UploadChangesOnlyResume | src/components/ProfilePage.tsx:57-62 | an accepted upload changes only the resume and its text |
| JobsData.SampleTablesWellShaped | src/data/jobsData.ts:24-133 | the code's tables have 30 companies, 20 locations, 4 types and levels, 16 titles and 3 salaries and descriptions per level, 8 categories of at least 5 skills |
| JobsData.Take | src/data/jobsData.ts:20 | the slice is the first min(length, n) entries |
| JobsData.MakeJob | src/data/jobsData.ts:146-159 | the job's id is baseId + 1000 and its date is the given date |
| JobsData.MakeJobFields | src/data/jobsData.ts:135-159 | each field is read from its table at baseId modulo its length; title, salary and description from the level's tables; url and logo from the same company; exactly five skills |
| JobsData.DailyJobBatch | src/data/jobsData.ts:23-160 | a batch is exactly one job, with id baseId + 1000 and the given date |
| JobsData.TypeFollowsLevel | src/data/jobsData.ts:91-92 | with the code's tables the type always follows the level: Entry is Full-time, Mid Part-time, Senior Contract, Lead Remote |
| JobsData.TitleSlotFixesLevel | src/data/jobsData.ts:136-138 | two ids equal modulo 16 get the same level and title |
| JobsData.SalaryTableWellFormed | src/data/jobsData.ts:105-110 | every salary bound in the code's table is a digit string of at least two digits, the lower one without a leading zero |
| JobsData.WellFormedRangeKey | src/data/jobsData.ts:105-110 | a well-formed range reads as a key of at least 1,000,000,000 |
| JobsData.GeneratedSalaryOnlyTopBucket | src/data/jobsData.ts:143 | with the code's salary table every generated job lies only in "300k+" |
| JobsData.JobsPerDay | src/data/jobsData.ts:14 | a day holds between three and five jobs |
| JobsData.Counts | src/data/jobsData.ts:8-14 | one count per day, each between three and five |
| JobsData.DayJobs | src/data/jobsData.ts:15-17 | day d holds `count` jobs, the j-th being the batch job of id d*10 + j |
| JobsData.GenerateDailyJobs | src/data/jobsData.ts:3-21 | the loop returns the first 150 of the days' jobs in order |
| JobsData.AllDaysLength | src/data/jobsData.ts:8-18 | the days together hold as many jobs as their counts add up to |
| JobsData.SumBounds | src/data/jobsData.ts:8-14 | n counts between three and five add up to between 3n and 5n |
| JobsData.IdsAppend | src/data/jobsData.ts:16 | two lists with increasing ids in adjacent ranges concatenate to one |
| JobsData.DayJobsIds | src/data/jobsData.ts:15-17 | a day's jobs have increasing ids within that day's ten ids |
| JobsData.AllDaysIds | src/data/jobsData.ts:8-18 | the ids of the first n days strictly increase and lie in [1000, 1000 + 10n) |
| JobsData.MadeJobDated | src/data/jobsData.ts:9-16 | the job of day d, slot j is dated by day d |
| JobsData.DayJobsDated | src/data/jobsData.ts:9-17 | every job of one day is dated by that day |
| JobsData.DatedByDayAppend | src/data/jobsData.ts:16 | lists dated by day concatenate to a list dated by day |
| JobsData.AllDaysDated | src/data/jobsData.ts:8-18 | every job of the first n days is the batch job of its id, dated by its day |
| JobsData.GeneratedJobsShape | src/data/jobsData.ts:3-21 | the list holds 90 to 150 jobs, so the cap never cuts; ids strictly increase within [1000, 1300); each job is dated by its day |
| JobsData.MobileJobsMatchReact | src/data/jobsData.ts:97 | a job of the mobile category is found by a search for "React" |
| GeminiService.LastIndexOf | src/services/geminiService.ts:41 | the last position of a character, absent iff the character does not occur |
| GeminiService.ExtractJson | src/services/geminiService.ts:41-44 | no match iff no '}' follows a '{'; otherwise the span from the first '{' to the last '}' |
| GeminiService.ExtractJsonIsWidest | src/services/geminiService.ts:41 | whenever a '{' precedes a '}', there is a match that contains that pair |
| GeminiService.FallbackInsightsShape | src/services/geminiService.ts:47-65 | the fallback holds five questions, five tips and a non-empty letter |
| GeminiService.JobInsights | src/services/geminiService.ts:10-67 | a failed call or a reply without a span gives the fallback; any other result is exactly the parse of the span |
| GeminiService.ParsedReplyIsUsed | src/services/geminiService.ts:41-44 | a reply whose span parses yields the parsed insights |
| GeminiService.FallbackTopic | src/services/geminiService.ts:93-107 | interview iff the lowercased query mentions it; cover letter iff not interview and it mentions it; salary iff neither and it mentions salary or negotiate |
| GeminiService.CareerAdvice | src/services/geminiService.ts:69-109 | the reply when the call succeeds, otherwise the canned answer of the query's topic |
| GeminiService.InterviewTakesPriority | src/services/geminiService.ts:95-105 | a query mentioning interview and salary gets the interview answer |
| GeminiService.KeywordsIgnoreCase | src/services/geminiService.ts:93 | the topic depends only on the lowercased query, and a keyword in any case selects its topic |
| FilterPanels.SingleFieldPatch | src/components/FilterPanel.tsx:8-13 | a filter change carries exactly the one field named |
| FilterPanels.FilterChangeSetsOneField | src/components/ui/UltimateFilterPanel.tsx:72-77 | a filter change sets its field, keeps the other filter fields and the rest of the state |
| FilterPanels.HasActiveFiltersIffSomeField | src/components/ui/UltimateFilterPanel.tsx:87 | the active flag holds iff some filter field is non-empty |
| FilterPanels.ClearAll | src/components/ui/UltimateFilterPanel.tsx:79-85 | clearing also empties the location search |
| FilterPanels.ClearAllDeactivates | src/components/enhanced/EnhancedFilterPanel.tsx:72-85 | after clearing no filter is active, every field is empty, and only the filters changed |
| FilterPanels.FilterOptions | src/components/enhanced/EnhancedFilterPanel.tsx:93-95 | an option is shown iff it is listed and contains the search text case-insensitively |
| FilterPanels.FilteredLocations | src/components/ui/UltimateFilterPanel.tsx:56-66 | a location is shown iff it is one of the panel's and contains the search case-insensitively |
| FilterPanels.EmptySearchKeepsAll | src/components/ui/UltimateFilterPanel.tsx:62-66 | an empty search keeps every option in order |
| FilterPanels.EmptySearchShowsAll | src/components/ui/UltimateFilterPanel.tsx:56-66 | an empty search shows all fifteen locations |
| FilterPanels.LongerSearchShowsFewer | src/components/enhanced/EnhancedFilterPanel.tsx:93-95 | extending the search text never brings an option back |
| FilterPanels.UltimateLocationValue | src/components/ui/UltimateFilterPanel.tsx:219 | the dispatched value is the option's text before its first comma |
| FilterPanels.UltimateChoiceIsSelected | src/components/ui/UltimateFilterPanel.tsx:213-220 | a chosen option reports itself selected, and an option without a comma ("Remote") is dispatched whole |
| FilterPanels.EnhancedChoiceIsSelected | src/components/enhanced/EnhancedFilterPanel.tsx:186-193 | the enhanced panel dispatches the whole option and marks exactly that option checked |
| FilterPanels.PlainCityChoice | src/components/FilterPanel.tsx:61-80 | choosing a bare city with no other filter or search keeps exactly the jobs whose location contains it |
| FilterPanels.ToggleSection | src/components/ui/UltimateFilterPanel.tsx:68-70 | the named section flips and every other section keeps its state |
| FilterPanels.ToggleSectionTwice | src/components/ui/UltimateFilterPanel.tsx:68-70 | toggling a section twice restores the sections |
| FilterPanels.ToggleAccordion | src/components/enhanced/EnhancedFilterPanel.tsx:53-63 | the id is open afterwards iff it was closed, and every other id is unchanged |
| FilterPanels.ToggleAccordionTwice | src/components/enhanced/EnhancedFilterPanel.tsx:53-63 | toggling an accordion twice restores the set |
| FilterPanels.FieldOfValue | src/components/FilterPanel.tsx:103-111 | "title", "company", "postedDate" and "salary" select their own sort fields; any other value is kept as an unrecognised field carrying that value |
| FilterPanels.Flip | src/components/FilterPanel.tsx:114 | the other direction differs from the current one |
| FilterPanels.SelectFieldKeepsDirection | src/components/FilterPanel.tsx:103-111 | choosing a field keeps the direction and changes only the sort |
| FilterPanels.FlipDirectionTwice | src/components/FilterPanel.tsx:112-117 | the button flips the direction, keeps the field and the filters, and twice restores the sort |
| AIChatbot.BeginSend | src/components/AIChatbot.tsx:39-48 | the user's message is appended, the box cleared and a reply marked pending |
| AIChatbot.FinishSend | src/components/AIChatbot.tsx:50-71 | exactly one assistant message is appended, holding the reply or else the apology and stamped with the clock reading after the call plus one; the pending flag is lowered and the box keeps what was typed meanwhile |
| AIChatbot.Send | src/components/AIChatbot.tsx:36-72 | a blank box or a pending reply stops a send with nothing changed |
| AIChatbot.SendAppendsExchange | src/components/AIChatbot.tsx:39-71 | a send appends the user's text stamped with the reading before the call, then the reply or the apology stamped with the reading after it plus one; it clears the box and ends with nothing pending |
| AIChatbot.ExchangeIdsIncrease | src/components/AIChatbot.tsx:40-63 | when the clock does not go back during the call, the reply's id exceeds the question's |
| AIChatbot.BlankOrPendingIsNoOp | src/components/AIChatbot.tsx:37 | a white-space box or a pending reply makes the send do nothing |
| AIChatbot.KeyPress | src/components/AIChatbot.tsx:74-79 | any key other than Enter without Shift does nothing |
| AIChatbot.EnterSends | src/components/AIChatbot.tsx:74-79 | Enter sends and Shift+Enter does not |
| AIChatbot.AskQuick | src/components/AIChatbot.tsx:89-91 | a quick question only fills the box |
| AIChatbot.InitialChatIsSettled | src/components/AIChatbot.tsx:15-22 | the chat starts with one assistant greeting, nothing pending and the quick questions shown |
| AIChatbot.AlternatingAppendExchange | src/components/AIChatbot.tsx:39-68 | appending a user message and an assistant message keeps the messages alternating |
| AIChatbot.SendKeepsSettled | src/components/AIChatbot.tsx:36-72 | every send keeps the messages alternating with nothing pending afterwards |
| AIChatbot.SendHidesQuickQuestions | src/components/AIChatbot.tsx:171 | after a send the quick questions are hidden |
| AIChatbot.KeyPressKeepsSettled | src/components/AIChatbot.tsx:74-79 | every key press keeps a settled chat settled |
| AIChatbot.QuickQuestionThenSend | src/components/AIChatbot.tsx:89-91 | a quick question makes the chat ready to send, and sending it posts its text as the user's message |
| Strings.Lower | src/components/ui/UltimateJobList.tsx:37 | lowercasing keeps the length and maps each character on its own |
| Strings.LowerIdempotent | src/services/geminiService.ts:93 | lowercasing twice equals lowercasing once |
| Strings.ContainsLower | src/components/ui/UltimateJobList.tsx:37-40 | an occurrence survives lowercasing both strings |
| Strings.Trim | src/components/AIChatbot.tsx:37 | the result has no white space at either end, is a piece of the input with only white space before and after it, uses only characters of the input, and is empty iff the input is blank |
| Strings.TrimUnique | src/components/AIChatbot.tsx:37 | a non-empty piece without white space at its ends and only white space around it is the trimmed string |
| Strings.TrimIsPiece | src/components/ProfilePage.tsx:33 | the trimmed string occurs in the original |
| Strings.TrimOfTrimmed | src/components/ProfilePage.tsx:33 | trimming a trimmed string changes nothing |
| Strings.TrimDropsPadding | src/components/ProfilePage.tsx:15-33 | trimming removes leading white space in front of a trimmed non-empty string |
| Strings.Split | src/components/ProfilePage.tsx:33 | there is at least one piece, no piece holds the separator, and joining the pieces with it gives the text back |
| Strings.SplitAtSeparator | src/components/ProfilePage.tsx:33 | the first separator ends the first piece |
| Strings.Before | src/components/AuthPage.tsx:59 | the text before the first separator is a separator-free prefix |
| Strings.StrLessTotal | src/components/JobList.tsx:88-92 | two different strings are ordered one way or the other |
| Strings.StrLessTransitive | src/components/JobList.tsx:88-92 | string order is transitive |
| Strings.StrLessIsUnitOrder | src/components/JobList.tsx:88-92 | the character-by-character order is exactly JavaScript's lexicographic comparison of UTF-16 code units |
| Strings.CharUnitOrder | src/components/JobList.tsx:88-92 | two different characters compare in code units as their ranks do, whatever follows them |
| Strings.AstralSortsBeforePrivateUse | src/components/JobList.tsx:88-92 | U+10000 sorts before U+E000, as their code units do |
| Strings.Utf16 | src/components/AuthPage.tsx:39 | each character is one code unit below U+10000 and two above, so `length` lies between the character count and twice it, and equals it in the Basic Multilingual Plane |
| Strings.Utf16Append | src/components/ui/UltimateJobCard.tsx:194-197 | the units of a concatenation are the units of its parts, concatenated |
| Strings.Utf16OfBmp | src/components/ui/UltimateJobCard.tsx:194-197 | in the Basic Multilingual Plane the code units are the characters |
| Strings.Utf16BmpPrefix | src/components/ui/UltimateJobCard.tsx:194-197 | in the Basic Multilingual Plane the first n units encode the first n characters |
| Strings.AstralLength | src/components/AuthPage.tsx:39 | an emoji has `length` 2 |
| Strings.DigitsOfIsFilter | src/components/ui/UltimateJobList.tsx:54 | removing every non-digit is filtering the text for its digits, in order |
| Strings.DigitsLess | src/components/JobList.tsx:76-92 | digit strings of one width compare as strings exactly as their numbers do |
| Strings.SameShapeLess | src/components/JobList.tsx:76-92 | strings of one shape (digits at the same places, equal elsewhere) compare as their digit strings do |
| Seqs.FilterMultiset | src/components/ui/UltimateJobList.tsx:35-51 | filtering keeps each element that passes with its multiplicity and drops the rest |

## Left out

- Rendering, animation, icons, view modes, `scrollIntoView` and every JSX detail: they only draw.
- The 300 ms debounce and every `setTimeout` delay: the pipeline runs on the settled search term, and a load is its dispatches in order.
- `Math.random`: the per-day draws are a parameter in [0, 1).
- `Date.now` and `new Date()`: the days' dates, the user id text and the clock readings of messages are parameters.
- Date parsing: only the stored ISO text YYYY-MM-DD is parsed; any other text is an invalid date (`None`). JavaScript accepts more formats.
- The remote model call and its prompt text: the reply is an `Option<string>`. `JSON.parse` is a function parameter.
- The chat reply arrives through the career-advice service, which catches its own errors. The model keeps the chat's apology branch by letting the reply be `None`.
- `window.open`, `alert`, `console.log`, image fallbacks, the clipboard: browser effects.
- `File` objects: a file is its name, MIME type and size.
- `ProfilePage`'s `state.user!`: the page is not modelled without a user, except its form initialisation.
- JobCards.SkillMatch: `Math.round` of a floating-point ratio is modelled as exact round-half-up on integers; floating-point error near a half is not modelled.
- JobQuery.SalaryKey: `parseInt` loses precision past 2^53; the model uses unbounded integers.
- Strings.Lower: lowercases ASCII letters only; other Unicode case mappings are not modelled.
- Strings.Trim: uses a fixed set of white-space characters; it is not checked against every Unicode space separator.
- JobQuery.SortJobs: the engine's sort algorithm is unspecified, and the comparator never answers 0 for equal keys, so the order of equal keys is not fixed. The model is an insertion sort driven by the same comparator. Its contracts promise only what holds for any such sort: a permutation, sorted when no key is NaN, and fixed when keys are distinct.
- JobQuery.DateKey: follows the ECMAScript date time string format, under which a day past the end of its month (2024-02-30) is an invalid date; engines that fall back to a lenient parser and roll such a day into the next month are not modelled. The key is not the time value in milliseconds but orders and equates dates as it does, which is all the comparator uses.
- JobModal.GenerateInsights: describes a generation with nothing dispatched while the call is pending; other interleavings are the composition of BeginGenerate, the other dispatches and FinishGenerate, and StaleInsightsAfterClose states the one where the modal is closed and reopened.
- Other components (Header, UltimateHeader, EnhancedHeader, HomePage, ResumeRatingPage, SavedJobsList, LoadingScreen, App, index) and the debounce hook are not part of this model: they render, animate or only dispatch SET_SEARCH and page changes.
- The ResumeRatingPage's random scores are not part of this model.
