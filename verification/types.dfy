/** The records of the application: jobs, users, AI insights, the filter and sort
    selections, the global state and the actions its reducer accepts. */
module Types {

  /** A value that may be absent. Used for `T | null`, for optional fields, and for the
      numeric results that JavaScript turns into `NaN` (`None`). */
  datatype Option<+T> = None | Some(value: T)

  /** The four employment types, with the label a job carries and a filter compares against. */
  datatype JobType = FullTime | PartTime | Contract | RemoteType {
    function Label(): string {
      match this
      case FullTime => "Full-time"
      case PartTime => "Part-time"
      case Contract => "Contract"
      case RemoteType => "Remote"
    }
  }

  /** The four experience levels and their labels. */
  datatype Level = Entry | Mid | Senior | Lead {
    function Label(): string {
      match this
      case Entry => "Entry"
      case Mid => "Mid"
      case Senior => "Senior"
      case Lead => "Lead"
    }
  }

  /** A job posting. `postedDate` is the stored date text; `salary` is free text. */
  datatype Job = Job(
    id: int,
    title: string,
    company: string,
    location: string,
    description: string,
    salary: string,
    jobType: JobType,
    experience: Level,
    skills: seq<string>,
    postedDate: string,
    applicationUrl: string,
    companyLogo: Option<string>)

  /** The parts of an uploaded file the application inspects. */
  datatype ResumeFile = ResumeFile(name: string, mimeType: string, size: nat)

  /** The signed-in user's profile. */
  datatype User = User(
    id: string,
    email: string,
    name: string,
    profilePicture: Option<string>,
    resume: Option<ResumeFile>,
    resumeText: Option<string>,
    skills: seq<string>,
    desiredRole: Option<string>,
    experience: string,
    location: string)

  /** Insights generated for one job. */
  datatype AIResponse = AIResponse(interviewQuestions: seq<string>, applicationTips: seq<string>, coverLetter: string)

  /** The filter selection; the empty string means "no constraint". */
  datatype Filters = Filters(jobType: string, experience: string, location: string, salaryRange: string)

  /** A partial filter selection: the fields present (`Some`) overwrite, the rest are kept. */
  datatype FilterPatch = FilterPatch(jobType: Option<string>, experience: Option<string>, location: Option<string>, salaryRange: Option<string>)

  /** The sort field. The four named fields are the declared ones; `OtherField` is any
      other value a caller may pass through an untyped cast. */
  datatype SortField = Title | Company | PostedDate | Salary | OtherField(name: string)

  datatype Direction = Asc | Desc

  datatype Sort = Sort(field: SortField, direction: Direction)

  /** The application's single global state. */
  datatype JobState = JobState(
    jobs: seq<Job>,
    savedJobs: seq<Job>,
    loading: bool,
    error: Option<string>,
    searchTerm: string,
    filters: Filters,
    sortBy: Sort,
    selectedJob: Option<Job>,
    aiResponse: Option<AIResponse>,
    aiLoading: bool,
    user: Option<User>,
    isAuthenticated: bool,
    currentPage: string)

  /** The fourteen actions of the reducer, plus any other action type (`UnknownAction`). */
  datatype Action =
    | SetJobs(jobs: seq<Job>)
    | SetLoading(loading: bool)
    | SetError(error: Option<string>)
    | SetSearch(term: string)
    | SaveJob(job: Job)
    | UnsaveJob(id: int)
    | SetFilters(patch: FilterPatch)
    | SetSort(sort: Sort)
    | SetSelectedJob(selected: Option<Job>)
    | SetAIResponse(response: Option<AIResponse>)
    | SetAILoading(aiLoading: bool)
    | SetUser(user: Option<User>)
    | SetAuthenticated(authenticated: bool)
    | SetCurrentPage(page: string)
    | UnknownAction(kind: string)
}
