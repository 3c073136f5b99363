/** The sample job data: one job per batch id, built by choosing from fixed tables with
    `baseId` modulo each table's length, and thirty days of three to five batches each.
    Today's date and the random draws are parameters. The tables are a parameter too:
    `SampleTables` holds the code's values, and every fact that depends on a particular
    table says which one. */
module JobsData {
  import opened Types
  import opened Strings
  import opened JobQuery

  // ---------------------------------------------------------------- tables

  /** A hiring company: display name, logo address and jobs page. */
  datatype Employer = Employer(name: string, logo: string, url: string)

  const Companies: seq<Employer> := [
    Employer("Google", "https://logo.clearbit.com/google.com", "https://www.linkedin.com/company/google/jobs/"),
    Employer("Meta", "https://logo.clearbit.com/meta.com", "https://www.linkedin.com/company/meta/jobs/"),
    Employer("Amazon", "https://logo.clearbit.com/amazon.com", "https://www.linkedin.com/company/amazon/jobs/"),
    Employer("Microsoft", "https://logo.clearbit.com/microsoft.com", "https://www.linkedin.com/company/microsoft/jobs/"),
    Employer("Apple", "https://logo.clearbit.com/apple.com", "https://www.linkedin.com/company/apple/jobs/"),
    Employer("Netflix", "https://logo.clearbit.com/netflix.com", "https://www.linkedin.com/company/netflix/jobs/"),
    Employer("Tesla", "https://logo.clearbit.com/tesla.com", "https://www.linkedin.com/company/tesla-motors/jobs/"),
    Employer("Spotify", "https://logo.clearbit.com/spotify.com", "https://www.linkedin.com/company/spotify/jobs/"),
    Employer("Uber", "https://logo.clearbit.com/uber.com", "https://www.linkedin.com/company/uber-com/jobs/"),
    Employer("Airbnb", "https://logo.clearbit.com/airbnb.com", "https://www.linkedin.com/company/airbnb/jobs/"),
    Employer("Stripe", "https://logo.clearbit.com/stripe.com", "https://www.linkedin.com/company/stripe/jobs/"),
    Employer("Shopify", "https://logo.clearbit.com/shopify.com", "https://www.linkedin.com/company/shopify/jobs/"),
    Employer("Salesforce", "https://logo.clearbit.com/salesforce.com", "https://www.linkedin.com/company/salesforce/jobs/"),
    Employer("Adobe", "https://logo.clearbit.com/adobe.com", "https://www.linkedin.com/company/adobe/jobs/"),
    Employer("Intel", "https://logo.clearbit.com/intel.com", "https://www.linkedin.com/company/intel-corporation/jobs/"),
    Employer("NVIDIA", "https://logo.clearbit.com/nvidia.com", "https://www.linkedin.com/company/nvidia/jobs/"),
    Employer("Oracle", "https://logo.clearbit.com/oracle.com", "https://www.linkedin.com/company/oracle/jobs/"),
    Employer("IBM", "https://logo.clearbit.com/ibm.com", "https://www.linkedin.com/company/ibm/jobs/"),
    Employer("Cisco", "https://logo.clearbit.com/cisco.com", "https://www.linkedin.com/company/cisco/jobs/"),
    Employer("VMware", "https://logo.clearbit.com/vmware.com", "https://www.linkedin.com/company/vmware/jobs/"),
    Employer("Zoom", "https://logo.clearbit.com/zoom.us", "https://www.linkedin.com/company/zoom/jobs/"),
    Employer("Slack", "https://logo.clearbit.com/slack.com", "https://www.linkedin.com/company/tiny-spec-inc/jobs/"),
    Employer("Twitter", "https://logo.clearbit.com/twitter.com", "https://www.linkedin.com/company/twitter/jobs/"),
    Employer("LinkedIn", "https://logo.clearbit.com/linkedin.com", "https://www.linkedin.com/company/linkedin/jobs/"),
    Employer("GitHub", "https://logo.clearbit.com/github.com", "https://www.linkedin.com/company/github/jobs/"),
    Employer("Atlassian", "https://logo.clearbit.com/atlassian.com", "https://www.linkedin.com/company/atlassian/jobs/"),
    Employer("Dropbox", "https://logo.clearbit.com/dropbox.com", "https://www.linkedin.com/company/dropbox/jobs/"),
    Employer("Square", "https://logo.clearbit.com/squareup.com", "https://www.linkedin.com/company/square/jobs/"),
    Employer("PayPal", "https://logo.clearbit.com/paypal.com", "https://www.linkedin.com/company/paypal/jobs/"),
    Employer("eBay", "https://logo.clearbit.com/ebay.com", "https://www.linkedin.com/company/ebay/jobs/")
  ]

  /** Sixteen titles per level, in the order of `Levels`. */
  const Titles: seq<seq<string>> := [
    [
      "Junior Software Engineer", "Frontend Developer", "Backend Developer", "QA Engineer",
      "Data Analyst", "Marketing Coordinator", "Sales Associate", "Customer Success Associate",
      "Technical Writer", "UI/UX Designer", "Product Analyst", "Business Analyst",
      "Software Developer", "Web Developer", "Mobile Developer", "DevOps Engineer"],
    [
      "Software Engineer", "Senior Developer", "Full Stack Engineer", "Product Manager",
      "Data Scientist", "Marketing Manager", "Sales Manager", "Customer Success Manager",
      "Technical Lead", "UX Designer", "Product Designer", "Business Intelligence Analyst",
      "Cloud Engineer", "Security Engineer", "Site Reliability Engineer", "Solutions Architect"],
    [
      "Senior Software Engineer", "Principal Engineer", "Engineering Manager", "Senior Product Manager",
      "Senior Data Scientist", "Director of Marketing", "Sales Director", "VP of Customer Success",
      "Staff Engineer", "Senior Designer", "Design Manager", "Senior Business Analyst",
      "Cloud Architect", "Security Architect", "Principal SRE", "Distinguished Engineer"],
    [
      "Lead Engineer", "Engineering Director", "VP of Engineering", "Chief Product Officer",
      "Chief Data Officer", "Chief Marketing Officer", "Chief Sales Officer", "Chief Customer Officer",
      "CTO", "Head of Design", "VP of Product", "Chief Business Officer",
      "Chief Architect", "CISO", "VP of Infrastructure", "Chief Technology Officer"]]

  const Locations: seq<string> := [
    "San Francisco, CA", "New York, NY", "Seattle, WA", "Austin, TX", "Boston, MA",
    "Los Angeles, CA", "Chicago, IL", "Denver, CO", "Atlanta, GA", "Miami, FL",
    "Portland, OR", "Nashville, TN", "Raleigh, NC", "Phoenix, AZ", "Salt Lake City, UT",
    "Remote", "London, UK", "Toronto, Canada", "Berlin, Germany", "Amsterdam, Netherlands"]

  const JobTypes: seq<JobType> := [FullTime, PartTime, Contract, RemoteType]

  const Levels: seq<Level> := [Entry, Mid, Senior, Lead]

  /** The skill categories, in the order their keys are declared. */
  const SkillSets: seq<seq<string>> := [
    ["React", "Vue.js", "Angular", "TypeScript", "JavaScript", "CSS", "HTML", "Sass"],
    ["Node.js", "Python", "Java", "Go", "Ruby", "PHP", "C#", "Scala"],
    ["React Native", "Flutter", "Swift", "Kotlin", "iOS", "Android", "Xamarin"],
    ["Python", "R", "SQL", "Spark", "Hadoop", "Tableau", "PowerBI", "Machine Learning"],
    ["Docker", "Kubernetes", "AWS", "Azure", "GCP", "Jenkins", "Terraform", "Ansible"],
    ["Figma", "Sketch", "Adobe XD", "Photoshop", "Illustrator", "Prototyping", "User Research"],
    ["Analytics", "A/B Testing", "SQL", "Product Strategy", "Roadmapping", "Agile", "Scrum"],
    ["Google Analytics", "SEO", "SEM", "Social Media", "Content Marketing", "Email Marketing"]]

  /** The three salary ranges of each level, in the order of `Levels`, as (lower, upper)
      thousands: the pair ("60", "90") is the text "$60,000 - $90,000". */
  const Salaries: seq<seq<(string, string)>> := [
    [("60", "90"), ("70", "100"), ("80", "110")],
    [("100", "140"), ("120", "160"), ("130", "170")],
    [("150", "200"), ("160", "220"), ("180", "250")],
    [("200", "300"), ("250", "350"), ("300", "450")]]

  /** The three descriptions of each level, in the order of `Levels`. */
  const Descriptions: seq<seq<string>> := [
    [
      "Join our team as an entry-level professional and grow your career with mentorship and hands-on experience.",
      "Perfect opportunity for recent graduates to start their career in a supportive environment.",
      "Learn from industry experts while contributing to meaningful projects that impact millions of users."],
    [
      "Take ownership of key features and collaborate with cross-functional teams to deliver exceptional products.",
      "Drive technical decisions and mentor junior team members while building scalable solutions.",
      "Work on challenging problems with cutting-edge technologies in a fast-paced environment."],
    [
      "Lead complex projects and architect solutions that scale to millions of users worldwide.",
      "Shape technical strategy and drive innovation while mentoring the next generation of engineers.",
      "Own end-to-end delivery of critical features and influence product direction."],
    [
      "Define technical vision and strategy for the organization while building world-class teams.",
      "Drive organizational change and establish engineering excellence across multiple teams.",
      "Partner with executive leadership to align technology strategy with business objectives."]]

  /** The tables one batch job is chosen from. */
  datatype Tables = Tables(
    companies: seq<Employer>,
    titles: seq<seq<string>>,
    locations: seq<string>,
    jobTypes: seq<JobType>,
    levels: seq<Level>,
    skillSets: seq<seq<string>>,
    salaries: seq<seq<(string, string)>>,
    descriptions: seq<seq<string>>)

  /** The tables of the code. */
  const SampleTables: Tables :=
    Tables(Companies, Titles, Locations, JobTypes, Levels, SkillSets, Salaries, Descriptions)

  /** The sizes the code's tables have: thirty companies, twenty locations, four types,
      four levels each with sixteen titles, three salary ranges and three descriptions,
      and eight skill categories of at least five skills. */
  predicate WellShaped(t: Tables) {
    && |t.companies| == 30 && |t.locations| == 20 && |t.jobTypes| == 4 && |t.levels| == 4
    && |t.titles| == 4 && |t.salaries| == 4 && |t.descriptions| == 4 && |t.skillSets| == 8
    && (forall l :: 0 <= l < 4 ==> |t.titles[l]| == 16 && |t.salaries[l]| == 3 && |t.descriptions[l]| == 3)
    && (forall c :: 0 <= c < 8 ==> |t.skillSets[c]| >= 5)
  }

  /** The code's tables have those sizes. */
  lemma SampleTablesWellShaped()
    ensures WellShaped(SampleTables)
  {
  }

  // ---------------------------------------------------------------- one batch

  /** `s.slice(0, n)`. */
  function Take<T>(s: seq<T>, n: nat): (r: seq<T>)
    ensures |r| == if |s| <= n then |s| else n
    ensures r == s[..|r|]
  {
    if |s| <= n then s else s[..n]
  }

  /** The job of batch `baseId`: every table indexed by `baseId` modulo its length, the
      title and salary and description from the tables of the chosen level, the first
      five skills of the chosen category, and the id `baseId + 1000`. */
  function MakeJob(t: Tables, baseId: nat, date: string): (job: Job)
    requires WellShaped(t)
    ensures job.id == baseId + 1000 && job.postedDate == date
  {
    var company := t.companies[baseId % |t.companies|];
    var level := baseId % |t.levels|;
    var titles := t.titles[level];
    var range := t.salaries[level][baseId % |t.salaries[level]|];
    Job(
      baseId + 1000,
      titles[baseId % |titles|],
      company.name,
      t.locations[baseId % |t.locations|],
      t.descriptions[level][baseId % |t.descriptions[level]|],
      SalaryRange(range.0, range.1),
      t.jobTypes[baseId % |t.jobTypes|],
      t.levels[level],
      t.skillSets[baseId % |t.skillSets|][..5],
      date,
      company.url,
      Some(company.logo))
  }

  /** Which entry of which table each field of a batch job comes from. Level and type
      share the index `baseId % 4`; the title, salary and description are read from the
      tables of that level. */
  lemma MakeJobFields(t: Tables, baseId: nat, date: string)
    requires WellShaped(t)
    ensures var job := MakeJob(t, baseId, date);
      && job.experience == t.levels[baseId % 4] && job.jobType == t.jobTypes[baseId % 4]
      && job.company == t.companies[baseId % 30].name
      && job.applicationUrl == t.companies[baseId % 30].url
      && job.companyLogo == Some(t.companies[baseId % 30].logo)
      && job.title == t.titles[baseId % 4][baseId % 16]
      && job.salary == SalaryRange(t.salaries[baseId % 4][baseId % 3].0, t.salaries[baseId % 4][baseId % 3].1)
      && job.description == t.descriptions[baseId % 4][baseId % 3]
      && job.location == t.locations[baseId % 20]
      && job.skills == t.skillSets[baseId % 8][..5] && |job.skills| == 5
  {
  }

  /** `getDailyJobBatch`: a batch of exactly one job. */
  function DailyJobBatch(t: Tables, baseId: nat, date: string): (r: seq<Job>)
    requires WellShaped(t)
    ensures |r| == 1 && r[0].id == baseId + 1000 && r[0].postedDate == date
  {
    [MakeJob(t, baseId, date)]
  }

  /** The employment type each level is paired with. */
  function TypeOfLevel(level: Level): JobType {
    match level
    case Entry => FullTime
    case Mid => PartTime
    case Senior => Contract
    case Lead => RemoteType
  }

  /** With the code's level and type tables, both read at the same index of four-entry
      tables, every generated job pairs Entry with Full-time, Mid with Part-time, Senior
      with Contract and Lead with Remote; filtering by a type selects exactly one level. */
  lemma TypeFollowsLevel(t: Tables, baseId: nat, date: string)
    requires WellShaped(t) && t.jobTypes == JobTypes && t.levels == Levels
    ensures MakeJob(t, baseId, date).jobType == TypeOfLevel(MakeJob(t, baseId, date).experience)
    ensures MakeJob(t, baseId, date).jobType.Label() == "Full-time" <==> MakeJob(t, baseId, date).experience == Entry
  {
    MakeJobFields(t, baseId, date);
  }

  lemma ModFourOfModSixteen(a: nat)
    ensures a % 4 == (a % 16) % 4
  {
    var q, r := a / 16, a % 16;
    assert a == 4 * (4 * q) + r;
  }

  /** Every title of a level is paired with one level only: the title tables of two
      levels are index-aligned with `baseId % 16`, and sixteen is a multiple of four, so
      a title slot is always read for the same level. */
  lemma TitleSlotFixesLevel(t: Tables, a: nat, b: nat, date: string)
    requires WellShaped(t)
    requires a % 16 == b % 16
    ensures MakeJob(t, a, date).experience == MakeJob(t, b, date).experience
    ensures MakeJob(t, a, date).title == MakeJob(t, b, date).title
  {
    MakeJobFields(t, a, date);
    MakeJobFields(t, b, date);
    ModFourOfModSixteen(a);
    ModFourOfModSixteen(b);
  }

  // ---------------------------------------------------------------- salaries

  /** Both bounds are digit strings of at least two digits, and the lower one has no
      leading zero. */
  predicate WellFormedRange(p: (string, string)) {
    && AllDigits(p.0) && AllDigits(p.1)
    && |p.0| >= 2 && |p.1| >= 2 && p.0[0] != '0'
  }

  lemma SalaryTableWellFormed(level: nat, i: nat)
    requires level < 4 && i < 3
    ensures WellFormedRange(Salaries[level][i])
  {
  }

  lemma Pow10AtLeastHundred(n: nat)
    requires n >= 2
    ensures Pow10(n) >= 100
  {
    assert Pow10(n) == 10 * Pow10(n - 1) && Pow10(n - 1) == 10 * Pow10(n - 2);
  }

  lemma MulAtLeast(a: int, b: int, c: int, d: int)
    requires a >= c >= 0 && b >= d >= 0
    ensures a * b >= c * d
  {
    assert a * b - c * d == (a - c) * b + c * (b - d);
  }

  /** A well-formed range reads as a key of at least a thousand million. */
  lemma WellFormedRangeKey(p: (string, string))
    requires WellFormedRange(p)
    ensures SalaryKey(SalaryRange(p.0, p.1)).Some?
    ensures SalaryKey(SalaryRange(p.0, p.1)).value >= 1000000000
  {
    SalaryRangeKey(p.0, p.1);
    DecimalValueLowerBound(p.0);
    Pow10AtLeastHundred(|p.1|);
    assert Pow10(|p.0| - 1) >= 10 by {
      assert Pow10(|p.0| - 1) == 10 * Pow10(|p.0| - 2);
    }
    var lo := DecimalValue(p.0);
    var hi := DecimalValue(p.1);
    var shift := Pow10(|p.1|);
    MulAtLeast(lo * 1000, shift, 10000, 100);
    var inner := lo * 1000 * shift + hi;
    assert inner >= 1000000;
    MulAtLeast(inner, 1000, 1000000, 1000);
  }

  /** With the code's salary table, every generated salary concatenates to at least
      1000000000, so it falls in the "300k+" bucket and in no other: any other salary
      bucket hides every generated job. */
  lemma GeneratedSalaryOnlyTopBucket(t: Tables, baseId: nat, date: string)
    requires WellShaped(t) && t.salaries == Salaries
    ensures SalaryKey(MakeJob(t, baseId, date).salary).Some?
    ensures forall i :: 0 <= i < |Buckets| ==> (InBucket(SalaryKey(MakeJob(t, baseId, date).salary), Buckets[i]) <==> i == 5)
  {
    MakeJobFields(t, baseId, date);
    var p := Salaries[baseId % 4][baseId % 3];
    SalaryTableWellFormed(baseId % 4, baseId % 3);
    WellFormedRangeKey(p);
    LargeKeyOnlyTopBucket(SalaryKey(MakeJob(t, baseId, date).salary).value);
  }

  // ---------------------------------------------------------------- thirty days

  /** The number of days generated. */
  const Days: nat := 30

  /** The cap on the generated list. */
  const Cap: nat := 150

  /** `Math.floor(Math.random() * 3) + 3` for a draw in [0, 1). */
  function JobsPerDay(draw: real): (n: nat)
    requires 0.0 <= draw < 1.0
    ensures 3 <= n <= 5
  {
    (draw * 3.0).Floor + 3
  }

  predicate ValidDraws(draws: seq<real>) {
    forall i :: 0 <= i < |draws| ==> 0.0 <= draws[i] < 1.0
  }

  function Counts(draws: seq<real>): (r: seq<nat>)
    requires ValidDraws(draws)
    ensures |r| == |draws|
    ensures forall i :: 0 <= i < |r| ==> r[i] == JobsPerDay(draws[i]) && 3 <= r[i] <= 5
  {
    seq(|draws|, i requires 0 <= i < |draws| => JobsPerDay(draws[i]))
  }

  /** The jobs of day `day`: batches `day * 10` up to `day * 10 + count - 1`. */
  function DayJobs(t: Tables, day: nat, date: string, count: nat): (r: seq<Job>)
    requires WellShaped(t)
    ensures |r| == count
    ensures forall j :: 0 <= j < count ==> r[j] == MakeJob(t, day * 10 + j, date)
  {
    seq(count, j requires 0 <= j < count => MakeJob(t, day * 10 + j, date))
  }

  /** The jobs of the first `n` days, oldest index first. */
  function AllDays(t: Tables, dates: seq<string>, counts: seq<nat>, n: nat): seq<Job>
    requires WellShaped(t)
    requires n <= |dates| && n <= |counts|
  {
    if n == 0 then [] else AllDays(t, dates, counts, n - 1) + DayJobs(t, n - 1, dates[n - 1], counts[n - 1])
  }

  function Sum(counts: seq<nat>, n: nat): nat
    requires n <= |counts|
  {
    if n == 0 then 0 else Sum(counts, n - 1) + counts[n - 1]
  }

  /** `generateDailyJobs`: for each of the thirty days (`dates[i]` is today minus `i`
      days), as many batches as that day's draw gives, then the first 150. */
  method GenerateDailyJobs(t: Tables, dates: seq<string>, draws: seq<real>) returns (jobs: seq<Job>)
    requires WellShaped(t)
    requires |dates| == Days && |draws| == Days && ValidDraws(draws)
    ensures jobs == Take(AllDays(t, dates, Counts(draws), Days), Cap)
  {
    var counts := Counts(draws);
    jobs := [];
    var i := 0;
    while i < Days
      invariant 0 <= i <= Days
      invariant jobs == AllDays(t, dates, counts, i)
    {
      var perDay := JobsPerDay(draws[i]);
      var j := 0;
      while j < perDay
        invariant 0 <= j <= perDay
        invariant jobs == AllDays(t, dates, counts, i) + DayJobs(t, i, dates[i], j)
      {
        assert DayJobs(t, i, dates[i], j + 1) == DayJobs(t, i, dates[i], j) + DailyJobBatch(t, i * 10 + j, dates[i]);
        jobs := jobs + DailyJobBatch(t, i * 10 + j, dates[i]);
        j := j + 1;
      }
      i := i + 1;
    }
    jobs := Take(jobs, Cap);
  }

  /** The days together hold as many jobs as their counts add up to. */
  lemma {:induction false} AllDaysLength(t: Tables, dates: seq<string>, counts: seq<nat>, n: nat)
    requires WellShaped(t)
    requires n <= |dates| && n <= |counts|
    ensures |AllDays(t, dates, counts, n)| == Sum(counts, n)
  {
    if n > 0 {
      AllDaysLength(t, dates, counts, n - 1);
    }
  }

  lemma {:induction false} SumBounds(counts: seq<nat>, n: nat)
    requires n <= |counts|
    requires forall i :: 0 <= i < |counts| ==> 3 <= counts[i] <= 5
    ensures 3 * n <= Sum(counts, n) <= 5 * n
  {
    if n > 0 {
      SumBounds(counts, n - 1);
    }
  }

  /** Every id lies in [lo, hi). */
  predicate IdsBetween(js: seq<Job>, lo: int, hi: int) {
    forall k :: 0 <= k < |js| ==> lo <= js[k].id < hi
  }

  /** Ids strictly increase along the list, so no two jobs share one. */
  predicate IdsIncrease(js: seq<Job>) {
    forall a, b :: 0 <= a < b < |js| ==> js[a].id < js[b].id
  }

  /** Two lists with increasing ids in adjacent ranges concatenate to one. */
  lemma IdsAppend(a: seq<Job>, b: seq<Job>, lo: int, mid: int, hi: int)
    requires lo <= mid <= hi
    requires IdsBetween(a, lo, mid) && IdsIncrease(a)
    requires IdsBetween(b, mid, hi) && IdsIncrease(b)
    ensures IdsBetween(a + b, lo, hi) && IdsIncrease(a + b)
  {
    var js := a + b;
    forall k | 0 <= k < |js| ensures lo <= js[k].id < hi {
      if k < |a| { assert js[k] == a[k]; } else { assert js[k] == b[k - |a|]; }
    }
    forall x, y | 0 <= x < y < |js| ensures js[x].id < js[y].id {
      if y < |a| {
        assert js[x] == a[x] && js[y] == a[y];
      } else if x >= |a| {
        assert js[x] == b[x - |a|] && js[y] == b[y - |a|];
      } else {
        assert js[x] == a[x] && js[y] == b[y - |a|];
      }
    }
  }

  /** The jobs of one day, at most ten, have increasing ids in the day's ten ids. */
  lemma DayJobsIds(t: Tables, day: nat, date: string, count: nat)
    requires WellShaped(t) && count <= 10
    ensures IdsBetween(DayJobs(t, day, date, count), 1000 + 10 * day, 1000 + 10 * day + 10)
    ensures IdsIncrease(DayJobs(t, day, date, count))
  {
  }

  /** Ids of the first `n` days strictly increase and lie in [1000, 1000 + 10 n): a day
      never uses more than ten batch ids, so day `i` owns ids 1000 + 10 i onwards. */
  lemma {:induction false} AllDaysIds(t: Tables, dates: seq<string>, counts: seq<nat>, n: nat)
    requires WellShaped(t)
    requires n <= |dates| && n <= |counts|
    requires forall i :: 0 <= i < |counts| ==> counts[i] <= 10
    ensures IdsBetween(AllDays(t, dates, counts, n), 1000, 1000 + 10 * n)
    ensures IdsIncrease(AllDays(t, dates, counts, n))
  {
    if n > 0 {
      AllDaysIds(t, dates, counts, n - 1);
      DayJobsIds(t, n - 1, dates[n - 1], counts[n - 1]);
      IdsAppend(AllDays(t, dates, counts, n - 1), DayJobs(t, n - 1, dates[n - 1], counts[n - 1]),
        1000, 1000 + 10 * (n - 1), 1000 + 10 * n);
    }
  }

  /** A job produced by `MakeJob` from its own id and date. */
  predicate IsBatchJob(t: Tables, job: Job)
    requires WellShaped(t)
  {
    job.id >= 1000 && job == MakeJob(t, job.id - 1000, job.postedDate)
  }

  /** A batch job posted on the date of day `(id - 1000) / 10`. */
  predicate DatedJob(t: Tables, job: Job, dates: seq<string>)
    requires WellShaped(t)
  {
    && 1000 <= job.id && (job.id - 1000) / 10 < |dates|
    && job.postedDate == dates[(job.id - 1000) / 10] && IsBatchJob(t, job)
  }

  /** Each job is a batch job, dated by the day its id belongs to. */
  predicate DatedByDay(t: Tables, js: seq<Job>, dates: seq<string>)
    requires WellShaped(t)
  {
    forall k :: 0 <= k < |js| ==> DatedJob(t, js[k], dates)
  }

  lemma MadeJobDated(t: Tables, day: nat, j: nat, dates: seq<string>)
    requires WellShaped(t)
    requires day < |dates| && j < 10
    ensures DatedJob(t, MakeJob(t, day * 10 + j, dates[day]), dates)
  {
    assert (day * 10 + j) / 10 == day;
  }

  /** The jobs of one day, at most ten, are dated by that day. */
  lemma DayJobsDated(t: Tables, day: nat, count: nat, dates: seq<string>)
    requires WellShaped(t)
    requires day < |dates| && count <= 10
    ensures DatedByDay(t, DayJobs(t, day, dates[day], count), dates)
  {
    var js := DayJobs(t, day, dates[day], count);
    forall k | 0 <= k < |js| ensures DatedJob(t, js[k], dates) {
      MadeJobDated(t, day, k, dates);
    }
  }

  lemma DatedByDayAppend(t: Tables, a: seq<Job>, b: seq<Job>, dates: seq<string>)
    requires WellShaped(t)
    requires DatedByDay(t, a, dates) && DatedByDay(t, b, dates)
    ensures DatedByDay(t, a + b, dates)
  {
    var js := a + b;
    forall k | 0 <= k < |js| ensures DatedJob(t, js[k], dates) {
      if k < |a| { assert js[k] == a[k]; } else { assert js[k] == b[k - |a|]; }
    }
  }

  /** Every job of the first `n` days is the batch job of its own id, dated by its day. */
  lemma {:induction false} AllDaysDated(t: Tables, dates: seq<string>, counts: seq<nat>, n: nat)
    requires WellShaped(t)
    requires n <= |dates| && n <= |counts|
    requires forall i :: 0 <= i < |counts| ==> counts[i] <= 10
    ensures DatedByDay(t, AllDays(t, dates, counts, n), dates)
  {
    if n > 0 {
      AllDaysDated(t, dates, counts, n - 1);
      DayJobsDated(t, n - 1, counts[n - 1], dates);
      DatedByDayAppend(t, AllDays(t, dates, counts, n - 1), DayJobs(t, n - 1, dates[n - 1], counts[n - 1]), dates);
    }
  }

  /** The generated list holds between 90 and 150 jobs, so the cap of 150 never cuts
      anything; ids strictly increase (hence are unique) and lie in [1000, 1300); and each
      job is the batch job of its id, posted on the date of day `(id - 1000) / 10`. */
  lemma GeneratedJobsShape(t: Tables, dates: seq<string>, draws: seq<real>)
    requires WellShaped(t)
    requires |dates| == Days && |draws| == Days && ValidDraws(draws)
    ensures Take(AllDays(t, dates, Counts(draws), Days), Cap) == AllDays(t, dates, Counts(draws), Days)
    ensures 90 <= |AllDays(t, dates, Counts(draws), Days)| <= 150
    ensures IdsBetween(AllDays(t, dates, Counts(draws), Days), 1000, 1300)
    ensures IdsIncrease(AllDays(t, dates, Counts(draws), Days))
    ensures DatedByDay(t, AllDays(t, dates, Counts(draws), Days), dates)
  {
    var counts := Counts(draws);
    AllDaysLength(t, dates, counts, Days);
    SumBounds(counts, Days);
    AllDaysIds(t, dates, counts, Days);
    AllDaysDated(t, dates, counts, Days);
  }

  /** With the code's skill table, a batch in the mobile category lists "React Native",
      so a search for "React" finds it. */
  lemma MobileJobsMatchReact(t: Tables, baseId: nat, date: string)
    requires WellShaped(t) && t.skillSets == SkillSets
    requires baseId % 8 == 2
    ensures SearchHit(MakeJob(t, baseId, date), "React")
  {
    var job := MakeJob(t, baseId, date);
    MakeJobFields(t, baseId, date);
    assert job.skills[0] == "React Native";
    SearchIsCaseInsensitiveSubstring(job);
  }
}
