/** The job query pipeline shared by both job lists: an optional case-insensitive search,
    four conjunctive filters, a salary key read from the salary text, and a single-key
    sort whose comparator never answers "equal" for a known field. */
module JobQuery {
  import opened Types
  import opened Strings
  import opened Seqs

  // ---------------------------------------------------------------- salary key and buckets

  /** `parseInt(salary.replace(/[^\d]/g, ''))`: every digit of the text, concatenated and
      read as one number, so a range such as "$120,000 - $160,000" reads as 120000160000.
      Text without digits reads as `NaN` (`None`). */
  function SalaryKey(salary: string): (r: Option<int>)
    ensures r.None? <==> forall k :: 0 <= k < |salary| ==> !IsDigit(salary[k])
    ensures r.Some? ==> AllDigits(Filter(salary, IsDigit)) && r.value == DecimalValue(Filter(salary, IsDigit))
  {
    var d := DigitsOf(salary);
    DigitsOfIsFilter(salary);
    if d == "" then None else Some(DecimalValue(d))
  }

  /** The six bucket names the salary filter recognises. */
  const Buckets: seq<string> := ["0-80k", "80k-120k", "120k-160k", "160k-200k", "200k-300k", "300k+"]

  /** The salary-bucket test for one key. A `NaN` key fails every comparison; a bucket
      name that is not recognised keeps every job. */
  predicate InBucket(key: Option<int>, bucket: string) {
    if bucket == "0-80k" then key.Some? && key.value < 80000
    else if bucket == "80k-120k" then key.Some? && 80000 <= key.value < 120000
    else if bucket == "120k-160k" then key.Some? && 120000 <= key.value < 160000
    else if bucket == "160k-200k" then key.Some? && 160000 <= key.value < 200000
    else if bucket == "200k-300k" then key.Some? && 200000 <= key.value < 300000
    else if bucket == "300k+" then key.Some? && key.value >= 300000
    else true
  }

  /** The six buckets are pairwise disjoint, together cover every number, exclude `NaN`,
      and a name outside them constrains nothing. */
  lemma BucketsPartition(key: Option<int>, bucket: string)
    ensures forall i, j :: 0 <= i < j < |Buckets| ==> !(InBucket(key, Buckets[i]) && InBucket(key, Buckets[j]))
    ensures key.Some? ==> exists i :: 0 <= i < |Buckets| && InBucket(key, Buckets[i])
    ensures key.None? ==> forall i :: 0 <= i < |Buckets| ==> !InBucket(key, Buckets[i])
    ensures bucket !in Buckets ==> InBucket(key, bucket)
  {
    if key.Some? {
      var v := key.value;
      var i := if v < 80000 then 0 else if v < 120000 then 1 else if v < 160000 then 2
        else if v < 200000 then 3 else if v < 300000 then 4 else 5;
      assert InBucket(key, Buckets[i]);
    }
  }

  // ---------------------------------------------------------------- search and filters

  /** The search test: the lowercased term occurs in the lowercased title, company, or
      some skill. */
  predicate SearchHit(job: Job, term: string) {
    var t := Lower(term);
    || Contains(Lower(job.title), t)
    || Contains(Lower(job.company), t)
    || exists k | 0 <= k < |job.skills| :: Contains(Lower(job.skills[k]), t)
  }

  /** The reference reading of the constraints: a job is shown iff it passes the search
      (when the term is non-empty) and every non-empty filter. Type and experience compare
      labels exactly, location is a case-sensitive substring test, salary is a bucket test. */
  predicate Admits(job: Job, term: string, f: Filters) {
    && (term == "" || SearchHit(job, term))
    && (f.jobType == "" || job.jobType.Label() == f.jobType)
    && (f.experience == "" || job.experience.Label() == f.experience)
    && (f.location == "" || Contains(job.location, f.location))
    && (f.salaryRange == "" || InBucket(SalaryKey(job.salary), f.salaryRange))
  }

  /** The five steps of the pipeline, each guarded by its own `if`. */
  datatype Stage = SearchStage | TypeStage | ExperienceStage | LocationStage | SalaryStage

  /** The order the source applies them in. */
  const SourceOrder: seq<Stage> := [SearchStage, TypeStage, ExperienceStage, LocationStage, SalaryStage]

  /** The guard of a step: its input is non-empty. */
  predicate Active(stage: Stage, term: string, f: Filters) {
    match stage
    case SearchStage => term != ""
    case TypeStage => f.jobType != ""
    case ExperienceStage => f.experience != ""
    case LocationStage => f.location != ""
    case SalaryStage => f.salaryRange != ""
  }

  /** The per-job test of a step, as its `filter` callback states it. */
  predicate Hit(stage: Stage, job: Job, term: string, f: Filters) {
    match stage
    case SearchStage => SearchHit(job, term)
    case TypeStage => job.jobType.Label() == f.jobType
    case ExperienceStage => job.experience.Label() == f.experience
    case LocationStage => Contains(job.location, f.location)
    case SalaryStage => InBucket(SalaryKey(job.salary), f.salaryRange)
  }

  function HitTest(stage: Stage, term: string, f: Filters): Job -> bool {
    job => Hit(stage, job, term, f)
  }

  /** One step: filter when its guard holds, otherwise pass the list through. */
  function ApplyStage(stage: Stage, jobs: seq<Job>, term: string, f: Filters): seq<Job> {
    if Active(stage, term, f) then Filter(jobs, HitTest(stage, term, f)) else jobs
  }

  /** The steps in the given order. */
  function RunStages(order: seq<Stage>, jobs: seq<Job>, term: string, f: Filters): seq<Job>
    decreases |order|
  {
    if |order| == 0 then jobs else RunStages(order[1..], ApplyStage(order[0], jobs, term, f), term, f)
  }

  /** A job survives a step iff the step is inactive or the job hits it. */
  predicate Passes(stage: Stage, job: Job, term: string, f: Filters) {
    !Active(stage, term, f) || Hit(stage, job, term, f)
  }

  predicate PassesAll(order: seq<Stage>, job: Job, term: string, f: Filters) {
    forall k :: 0 <= k < |order| ==> Passes(order[k], job, term, f)
  }

  function PassesAllTest(order: seq<Stage>, term: string, f: Filters): Job -> bool {
    job => PassesAll(order, job, term, f)
  }

  lemma ApplyStageIsFilter(stage: Stage, jobs: seq<Job>, term: string, f: Filters)
    ensures ApplyStage(stage, jobs, term, f) == Filter(jobs, job => Passes(stage, job, term, f))
  {
    if Active(stage, term, f) {
      FilterCongruent(jobs, HitTest(stage, term, f), job => Passes(stage, job, term, f));
    } else {
      FilterKeepsAll(jobs, job => Passes(stage, job, term, f));
    }
  }

  /** Running steps one after another is one filter by their conjunction. */
  lemma {:induction false} RunStagesIsFilter(order: seq<Stage>, jobs: seq<Job>, term: string, f: Filters)
    ensures RunStages(order, jobs, term, f) == Filter(jobs, PassesAllTest(order, term, f))
    decreases |order|
  {
    if |order| == 0 {
      FilterKeepsAll(jobs, PassesAllTest(order, term, f));
    } else {
      var first := ApplyStage(order[0], jobs, term, f);
      RunStagesIsFilter(order[1..], first, term, f);
      ApplyStageIsFilter(order[0], jobs, term, f);
      var p := (job: Job) => Passes(order[0], job, term, f);
      var q := PassesAllTest(order[1..], term, f);
      var pq := PassesAllTest(order, term, f);
      forall job ensures pq(job) == (p(job) && q(job)) {
        assert PassesAll(order, job, term, f) <==> Passes(order[0], job, term, f) && PassesAll(order[1..], job, term, f) by {
          if Passes(order[0], job, term, f) && PassesAll(order[1..], job, term, f) {
            forall k | 0 <= k < |order| ensures Passes(order[k], job, term, f) {
              if k > 0 { assert order[k] == order[1..][k - 1]; }
            }
          }
        }
      }
      FilterFuse(jobs, p, q, pq);
    }
  }

  /** With every step present, passing them all is exactly the reference reading. */
  lemma PassesAllIsAdmits(order: seq<Stage>, job: Job, term: string, f: Filters)
    requires forall st: Stage :: st in order
    ensures PassesAll(order, job, term, f) <==> Admits(job, term, f)
  {
    if PassesAll(order, job, term, f) {
      forall st: Stage ensures Passes(st, job, term, f) {
        assert st in order;
        var k :| 0 <= k < |order| && order[k] == st;
      }
      assert Passes(SearchStage, job, term, f) && Passes(TypeStage, job, term, f);
      assert Passes(ExperienceStage, job, term, f) && Passes(LocationStage, job, term, f);
      assert Passes(SalaryStage, job, term, f);
    }
  }

  function AdmitsTest(term: string, f: Filters): Job -> bool {
    job => Admits(job, term, f)
  }

  /** The result set does not depend on the order of the steps: any order that contains
      every step filters exactly the admitted jobs, in their input order. */
  lemma StageOrderIrrelevant(order: seq<Stage>, jobs: seq<Job>, term: string, f: Filters)
    requires forall st: Stage :: st in order
    ensures RunStages(order, jobs, term, f) == Filter(jobs, AdmitsTest(term, f))
  {
    RunStagesIsFilter(order, jobs, term, f);
    forall k | 0 <= k < |jobs|
      ensures PassesAllTest(order, term, f)(jobs[k]) == AdmitsTest(term, f)(jobs[k])
    {
      PassesAllIsAdmits(order, jobs[k], term, f);
    }
    FilterCongruent(jobs, PassesAllTest(order, term, f), AdmitsTest(term, f));
  }

  // ---------------------------------------------------------------- sort

  /** The Gregorian leap-year rule. */
  predicate LeapYear(y: int) {
    y % 4 == 0 && (y % 100 != 0 || y % 400 == 0)
  }

  /** The length of month `m` (1 to 12) of year `y`. */
  function DaysInMonth(y: int, m: int): (n: int)
    ensures 28 <= n <= 31
    ensures m == 2 ==> (n == 29 <==> LeapYear(y))
  {
    if m == 2 then (if LeapYear(y) then 29 else 28)
    else if m == 4 || m == 6 || m == 9 || m == 11 then 30
    else 31
  }

  /** The shape YYYY-MM-DD: ten characters, digits everywhere except a '-' at 4 and at 7. */
  predicate DateShaped(text: string) {
    && |text| == 10 && text[4] == '-' && text[7] == '-'
    && IsDigit(text[0]) && IsDigit(text[1]) && IsDigit(text[2]) && IsDigit(text[3])
    && IsDigit(text[5]) && IsDigit(text[6]) && IsDigit(text[8]) && IsDigit(text[9])
  }

  /** The number the two digits of `text` at `i` and `i + 1` denote. */
  function TwoDigits(text: string, i: nat): nat
    requires i + 1 < |text| && IsDigit(text[i]) && IsDigit(text[i + 1])
  {
    10 * DigitValue(text[i]) + DigitValue(text[i + 1])
  }

  function YearOf(text: string): nat
    requires DateShaped(text)
  {
    100 * TwoDigits(text, 0) + TwoDigits(text, 2)
  }

  function MonthOf(text: string): nat
    requires DateShaped(text)
  {
    TwoDigits(text, 5)
  }

  function DayOf(text: string): nat
    requires DateShaped(text)
  {
    TwoDigits(text, 8)
  }

  /** A date-only string of the ECMAScript date time string format naming a day of the
      calendar: the month is 1 to 12 and the day lies within that month. */
  predicate ValidDate(text: string) {
    DateShaped(text) && 1 <= MonthOf(text) <= 12
    && 1 <= DayOf(text) <= DaysInMonth(YearOf(text), MonthOf(text))
  }

  /** `new Date(text)` for the stored date text, as a number that orders like the time
      value: a calendar date gives a key from which its year, month and day can be read
      back; any other text is an invalid date (`NaN`). `DateKeyOrderIsTextOrder` and
      `DateKeyOrderIsCalendarOrder` show how keys compare. */
  function DateKey(text: string): (r: Option<int>)
    ensures r.Some? <==> ValidDate(text)
    ensures r.Some? ==>
      r.value / 10000 == YearOf(text) && r.value / 100 % 100 == MonthOf(text) && r.value % 100 == DayOf(text)
  {
    if ValidDate(text) then
      var y, m, d := YearOf(text), MonthOf(text), DayOf(text);
      SplitKey(y, m, d);
      Some(y * 10000 + m * 100 + d)
    else None
  }

  /** February 29 exists in 2024 and not in 2023, and February 30 never does. */
  lemma LeapDayExamples()
    ensures DateKey("2024-02-29").Some?
    ensures DateKey("2023-02-29").None? && DateKey("2024-02-30").None?
  {
    assert YearOf("2024-02-29") == 2024 && YearOf("2023-02-29") == 2023;
  }

  /** Year, month and day below 100 can be read back from y * 10000 + m * 100 + d. */
  lemma SplitKey(y: nat, m: nat, d: nat)
    requires m < 100 && d < 100
    ensures (y * 10000 + m * 100 + d) / 10000 == y
    ensures (y * 10000 + m * 100 + d) / 100 % 100 == m
    ensures (y * 10000 + m * 100 + d) % 100 == d
  {
    var k := y * 10000 + m * 100 + d;
    assert k == (y * 100 + m) * 100 + d;
    assert k / 100 == y * 100 + m;
    assert k == 10000 * y + (m * 100 + d) && m * 100 + d < 10000;
  }

  /** Two calendar dates: the smaller key is the earlier day. */
  lemma DateKeyOrderIsCalendarOrder(a: string, b: string)
    requires ValidDate(a) && ValidDate(b)
    ensures var ya, ma, da, yb, mb, db := YearOf(a), MonthOf(a), DayOf(a), YearOf(b), MonthOf(b), DayOf(b);
      DateKey(a).value < DateKey(b).value <==>
        ya < yb || (ya == yb && (ma < mb || (ma == mb && da < db)))
  {
    var ya, ma, da, yb, mb, db := YearOf(a), MonthOf(a), DayOf(a), YearOf(b), MonthOf(b), DayOf(b);
    var ka, kb := ma * 100 + da, mb * 100 + db;
    assert ka < 10000 && kb < 10000;
    if ya < yb {
      assert ya * 10000 + 10000 <= yb * 10000;
    } else if yb < ya {
      assert yb * 10000 + 10000 <= ya * 10000;
    } else if ma < mb {
      assert ma * 100 + 100 <= mb * 100;
    } else if mb < ma {
      assert mb * 100 + 100 <= ma * 100;
    }
  }

  /** Two digits read as `parseInt` reads them. */
  lemma TwoDigitsValue(x: string)
    requires |x| == 2 && AllDigits(x)
    ensures DecimalValue(x) == TwoDigits(x, 0)
  {
    var h := x[..1];
    assert h == [x[0]] && h[..0] == "";
    assert DecimalValue(h) == DigitValue(x[0]);
    assert x[..|x| - 1] == h;
  }

  /** Four digits read as `parseInt` reads them. */
  lemma FourDigitsValue(x: string)
    requires |x| == 4 && AllDigits(x)
    ensures DecimalValue(x) == 100 * TwoDigits(x, 0) + TwoDigits(x, 2)
  {
    assert x == x[..2] + x[2..];
    DecimalValueAppend(x[..2], x[2..]);
    TwoDigitsValue(x[..2]);
    TwoDigitsValue(x[2..]);
    assert Pow10(2) == 100;
  }

  /** The digits of a shaped date are its year, month and day digits, and read as one
      number they make its key. */
  lemma DateDigits(a: string)
    requires DateShaped(a)
    ensures DigitsOf(a) == a[..4] + a[5..7] + a[8..]
    ensures AllDigits(DigitsOf(a)) && |DigitsOf(a)| == 8
    ensures DecimalValue(DigitsOf(a)) == YearOf(a) * 10000 + MonthOf(a) * 100 + DayOf(a)
  {
    var y, m, d := a[..4], a[5..7], a[8..];
    DateFields(a);
    DateDigitsOf(a);
    ThreeFields(y, m, d);
    FourDigitsValue(y);
    TwoDigitsValue(m);
    TwoDigitsValue(d);
  }

  /** The year, month and day fields of a shaped date are digit strings. */
  lemma DateFields(a: string)
    requires DateShaped(a)
    ensures AllDigits(a[..4]) && AllDigits(a[5..7]) && AllDigits(a[8..])
    ensures TwoDigits(a[..4], 0) == TwoDigits(a, 0) && TwoDigits(a[..4], 2) == TwoDigits(a, 2)
    ensures TwoDigits(a[5..7], 0) == TwoDigits(a, 5) && TwoDigits(a[8..], 0) == TwoDigits(a, 8)
  {
    assert forall k :: 0 <= k < 4 ==> a[..4][k] == a[k];
    assert forall k :: 0 <= k < 2 ==> a[5..7][k] == a[k + 5] && a[8..][k] == a[k + 8];
  }

  /** Keeping the digits of YYYY-MM-DD drops the two dashes. */
  lemma DateDigitsOf(a: string)
    requires DateShaped(a) && AllDigits(a[..4]) && AllDigits(a[5..7]) && AllDigits(a[8..])
    ensures DigitsOf(a) == a[..4] + a[5..7] + a[8..]
  {
    var y, m, d := a[..4], a[5..7], a[8..];
    var yd, md := y + "-", m + "-";
    assert a == (yd + md) + d;
    DigitsOfAppend(yd + md, d);
    DigitsOfAppend(yd, md);
    DashedDigits(y);
    DashedDigits(m);
    DigitsOfDigits(d);
  }

  /** A digit string followed by a dash keeps only the digit string. */
  lemma DashedDigits(x: string)
    requires AllDigits(x)
    ensures DigitsOf(x + "-") == x
  {
    DigitsOfAppend(x, "-");
    DigitsOfDigits(x);
    assert DigitsOf("-") == "";
  }

  /** Four, two and two digits read as one number. */
  lemma ThreeFields(y: string, m: string, d: string)
    requires AllDigits(y) && AllDigits(m) && AllDigits(d) && |m| == 2 && |d| == 2
    ensures AllDigits(y + m + d)
    ensures DecimalValue(y + m + d) == DecimalValue(y) * 10000 + DecimalValue(m) * 100 + DecimalValue(d)
  {
    DecimalValueAppend(y, m);
    DecimalValueAppend(y + m, d);
    assert Pow10(2) == 100;
  }

  /** Where a shaped date has a digit. */
  lemma DateShapeDigits(a: string)
    requires DateShaped(a)
    ensures forall k :: 0 <= k < 10 ==> (IsDigit(a[k]) <==> k != 4 && k != 7)
  {
  }

  /** Two calendar dates: the smaller key is the date text that sorts first as a string. */
  lemma DateKeyOrderIsTextOrder(a: string, b: string)
    requires ValidDate(a) && ValidDate(b)
    ensures DateKey(a).value < DateKey(b).value <==> StrLess(a, b)
  {
    DateShapeDigits(a);
    DateShapeDigits(b);
    assert SameShape(a, b);
    SameShapeLess(a, b);
    DateDigits(a);
    DateDigits(b);
    DigitsLess(DigitsOf(a), DigitsOf(b));
  }

  /** What the comparator compares: a string, or a number that may be `NaN`. */
  datatype Key = Text(s: string) | Number(n: Option<int>)

  /** The value the comparator reads from a job for a field. */
  function KeyOf(job: Job, field: SortField): Key {
    match field
    case Title => Text(job.title)
    case Company => Text(job.company)
    case PostedDate => Number(DateKey(job.postedDate))
    case Salary => Number(SalaryKey(job.salary))
    case OtherField(_) => Number(None)
  }

  /** JavaScript's `a > b` on two keys of one kind: string order, or numeric order where
      any comparison with `NaN` is false. */
  predicate Greater(a: Key, b: Key) {
    match (a, b)
    case (Text(x), Text(y)) => StrLess(y, x)
    case (Number(Some(x)), Number(Some(y))) => x > y
    case _ => false
  }

  /** The comparator: 0 for an unrecognised field, otherwise 1 or -1, never 0. Ascending
      it answers 1 exactly when `a`'s key is greater than `b`'s; descending, exactly when
      `a`'s key is less than `b`'s. */
  function Compare(a: Job, b: Job, sort: Sort): (r: int)
    ensures r == -1 || r == 0 || r == 1
    ensures r == 0 <==> sort.field.OtherField?
    ensures !sort.field.OtherField? && sort.direction.Asc? ==>
      (r == 1 <==> Greater(KeyOf(a, sort.field), KeyOf(b, sort.field)))
    ensures !sort.field.OtherField? && sort.direction.Desc? ==>
      (r == 1 <==> Greater(KeyOf(b, sort.field), KeyOf(a, sort.field)))
  {
    if sort.field.OtherField? then 0
    else
      var ka := KeyOf(a, sort.field);
      var kb := KeyOf(b, sort.field);
      match sort.direction
      case Asc => if Greater(ka, kb) then 1 else -1
      case Desc => if Greater(kb, ka) then 1 else -1
  }

  /** The comparator of a sort selection as a function value. */
  function ComparatorOf(sort: Sort): (Job, Job) -> int {
    (a: Job, b: Job) => Compare(a, b, sort)
  }

  /** Insert `x` after the leading entries the comparator `cmp` places before it. */
  function Insert(x: Job, s: seq<Job>, cmp: (Job, Job) -> int): (r: seq<Job>)
    ensures |r| == |s| + 1
  {
    if |s| == 0 then [x]
    else if cmp(x, s[0]) > 0 then [s[0]] + Insert(x, s[1..], cmp)
    else [x] + s
  }

  /** Inserting adds one occurrence of the entry and keeps all others. */
  lemma {:induction false} InsertMultiset(x: Job, s: seq<Job>, cmp: (Job, Job) -> int)
    ensures multiset(Insert(x, s, cmp)) == multiset(s) + multiset{x}
  {
    if |s| > 0 {
      assert s == [s[0]] + s[1..];
      if cmp(x, s[0]) > 0 {
        InsertMultiset(x, s[1..], cmp);
      }
    }
  }

  /** An insertion sort driven by the comparator `cmp`. */
  function InsertionSort(s: seq<Job>, cmp: (Job, Job) -> int): (r: seq<Job>)
    ensures |r| == |s|
  {
    if |s| == 0 then [] else Insert(s[0], InsertionSort(s[1..], cmp), cmp)
  }

  /** The insertion sort returns a permutation of its input. */
  lemma {:induction false} InsertionSortMultiset(s: seq<Job>, cmp: (Job, Job) -> int)
    ensures multiset(InsertionSort(s, cmp)) == multiset(s)
  {
    if |s| > 0 {
      InsertionSortMultiset(s[1..], cmp);
      InsertMultiset(s[0], InsertionSort(s[1..], cmp), cmp);
      assert s == [s[0]] + s[1..];
    }
  }

  /** The sort `Array.prototype.sort` performs with the page's comparator. Its result is
      a permutation of its input. */
  function SortJobs(s: seq<Job>, sort: Sort): (r: seq<Job>)
    ensures multiset(r) == multiset(s)
  {
    InsertionSortMultiset(s, ComparatorOf(sort));
    InsertionSort(s, ComparatorOf(sort))
  }

  /** No entry is placed after a later one by the comparator. */
  predicate Sorted(s: seq<Job>, sort: Sort) {
    forall i, j :: 0 <= i < j < |s| ==> Compare(s[i], s[j], sort) <= 0
  }

  /** The key is a string, or a number that is not `NaN`. */
  predicate Comparable(job: Job, field: SortField) {
    match KeyOf(job, field)
    case Text(_) => true
    case Number(n) => n.Some?
  }

  predicate AllComparable(s: seq<Job>, field: SortField) {
    forall k :: 0 <= k < |s| ==> Comparable(s[k], field)
  }

  lemma GreaterIrreflexive(a: Key)
    ensures !Greater(a, a)
  {
    if a.Text? { StrLessIrreflexive(a.s); }
  }

  lemma GreaterAsymmetric(a: Key, b: Key)
    requires Greater(a, b)
    ensures !Greater(b, a)
  {
    if a.Text? { StrLessAsymmetric(b.s, a.s); }
  }

  lemma GreaterTransitive(a: Key, b: Key, c: Key)
    requires Greater(a, b) && Greater(b, c)
    ensures Greater(a, c)
  {
    if a.Text? { StrLessTransitive(c.s, b.s, a.s); }
  }

  /** Two different keys of one field, neither `NaN`, are ordered one way or the other. */
  lemma GreaterTotal(x: Job, y: Job, field: SortField)
    requires !field.OtherField? && Comparable(x, field) && Comparable(y, field)
    requires KeyOf(x, field) != KeyOf(y, field)
    ensures Greater(KeyOf(x, field), KeyOf(y, field)) || Greater(KeyOf(y, field), KeyOf(x, field))
  {
    match field
    case Title => StrLessTotal(x.title, y.title);
    case Company => StrLessTotal(x.company, y.company);
    case PostedDate =>
    case Salary =>
  }

  /** On comparable keys, "not after" is transitive. */
  lemma NotAfterTransitive(x: Job, y: Job, z: Job, sort: Sort)
    requires Comparable(x, sort.field) && Comparable(y, sort.field) && Comparable(z, sort.field)
    requires Compare(x, y, sort) <= 0 && Compare(y, z, sort) <= 0
    ensures Compare(x, z, sort) <= 0
  {
    if !sort.field.OtherField? {
      var kx, ky, kz := KeyOf(x, sort.field), KeyOf(y, sort.field), KeyOf(z, sort.field);
      if kx != ky { GreaterTotal(x, y, sort.field); }
      if sort.direction == Asc {
        if Greater(kx, kz) {
          if kx != ky { GreaterTransitive(ky, kx, kz); }
        }
      } else {
        if Greater(kz, kx) {
          if kx != ky { GreaterTransitive(kz, kx, ky); }
        }
      }
    }
  }

  /** An entry the comparator places after another places that other before it. */
  lemma AfterIsAsymmetric(x: Job, y: Job, sort: Sort)
    requires Compare(x, y, sort) > 0
    ensures Compare(y, x, sort) <= 0
  {
    var kx, ky := KeyOf(x, sort.field), KeyOf(y, sort.field);
    if sort.direction == Asc { GreaterAsymmetric(kx, ky); } else { GreaterAsymmetric(ky, kx); }
  }

  /** Entries in a permutation of a list without `NaN` keys have no `NaN` key either. */
  lemma PermutationComparable(a: seq<Job>, b: seq<Job>, field: SortField)
    requires multiset(a) == multiset(b) && AllComparable(a, field)
    ensures AllComparable(b, field)
  {
    forall k | 0 <= k < |b| ensures Comparable(b[k], field) {
      assert b[k] in multiset(a);
      var j :| 0 <= j < |a| && a[j] == b[k];
    }
  }

  /** Prepending an entry placed before every other keeps a list sorted. */
  lemma SortedCons(h: Job, s: seq<Job>, sort: Sort)
    requires Sorted(s, sort)
    requires forall k :: 0 <= k < |s| ==> Compare(h, s[k], sort) <= 0
    ensures Sorted([h] + s, sort)
  {
    var r := [h] + s;
    forall i, j | 0 <= i < j < |r| ensures Compare(r[i], r[j], sort) <= 0 {
      assert r[j] == s[j - 1];
      if i > 0 { assert r[i] == s[i - 1]; }
    }
  }

  /** Every entry of `Insert(x, s)` is `x` or an entry of `s`. */
  lemma InsertFrom(x: Job, s: seq<Job>, cmp: (Job, Job) -> int, k: int)
    requires 0 <= k < |Insert(x, s, cmp)|
    ensures Insert(x, s, cmp)[k] == x || Insert(x, s, cmp)[k] in s
  {
    var r := Insert(x, s, cmp);
    InsertMultiset(x, s, cmp);
    assert r[k] in multiset(r);
  }

  lemma {:induction false} InsertSorted(x: Job, s: seq<Job>, sort: Sort)
    requires Sorted(s, sort) && AllComparable(s, sort.field) && Comparable(x, sort.field)
    ensures Sorted(Insert(x, s, ComparatorOf(sort)), sort)
    decreases |s|
  {
    var cmp := ComparatorOf(sort);
    if |s| == 0 {
    } else if Compare(x, s[0], sort) > 0 {
      var tail := Insert(x, s[1..], cmp);
      assert Insert(x, s, cmp) == [s[0]] + tail;
      InsertSorted(x, s[1..], sort);
      HeadBeforeInserted(x, s, sort, tail);
      SortedCons(s[0], tail, sort);
    } else {
      assert Insert(x, s, cmp) == [x] + s;
      forall k | 0 <= k < |s| ensures Compare(x, s[k], sort) <= 0 {
        if k > 0 { NotAfterTransitive(x, s[0], s[k], sort); }
      }
      SortedCons(x, s, sort);
    }
  }

  /** When `x` goes after the head of a sorted list, the head is not after anything of
      the tail with `x` inserted. */
  lemma HeadBeforeInserted(x: Job, s: seq<Job>, sort: Sort, tail: seq<Job>)
    requires |s| > 0 && Sorted(s, sort) && Comparable(x, sort.field) && Comparable(s[0], sort.field)
    requires Compare(x, s[0], sort) > 0 && tail == Insert(x, s[1..], ComparatorOf(sort))
    ensures forall k :: 0 <= k < |tail| ==> Compare(s[0], tail[k], sort) <= 0
  {
    var cmp := ComparatorOf(sort);
    forall k | 0 <= k < |tail| ensures Compare(s[0], tail[k], sort) <= 0 {
      InsertFrom(x, s[1..], cmp, k);
      if tail[k] == x {
        AfterIsAsymmetric(x, s[0], sort);
      } else {
        var j :| 0 <= j < |s[1..]| && s[1..][j] == tail[k];
        assert s[j + 1] == tail[k];
      }
    }
  }

  /** With no `NaN` key, the sort's output is ordered by the comparator. */
  lemma {:induction false} SortJobsSorted(s: seq<Job>, sort: Sort)
    requires AllComparable(s, sort.field)
    ensures Sorted(SortJobs(s, sort), sort)
  {
    if |s| > 0 {
      var cmp := ComparatorOf(sort);
      var rest := InsertionSort(s[1..], cmp);
      SortJobsSorted(s[1..], sort);
      InsertionSortMultiset(s[1..], cmp);
      PermutationComparable(s[1..], rest, sort.field);
      InsertSorted(s[0], rest, sort);
      assert SortJobs(s, sort) == Insert(s[0], rest, cmp);
    }
  }

  /** A comparator that always answers 0 leaves every order unchanged. */
  lemma {:induction false} IndifferentComparatorKeepsOrder(s: seq<Job>, cmp: (Job, Job) -> int)
    requires forall a, b :: cmp(a, b) == 0
    ensures InsertionSort(s, cmp) == s
  {
    if |s| > 0 {
      IndifferentComparatorKeepsOrder(s[1..], cmp);
      assert s == [s[0]] + s[1..];
    }
  }

  /** For a field outside the four cases the comparator always answers 0 and the filtered
      order is returned unchanged. */
  lemma UnknownFieldKeepsOrder(s: seq<Job>, name: string, dir: Direction)
    ensures SortJobs(s, Sort(OtherField(name), dir)) == s
  {
    IndifferentComparatorKeepsOrder(s, ComparatorOf(Sort(OtherField(name), dir)));
  }

  /** No two entries share a key for the field (which also rules out an entry listed twice). */
  predicate DistinctKeys(s: seq<Job>, field: SortField) {
    && (forall a, b | a in s && b in s && KeyOf(a, field) == KeyOf(b, field) :: a == b)
    && (forall x | x in s :: multiset(s)[x] == 1)
  }

  /** Keys strictly increase along `s`. */
  predicate StrictlyAscending(s: seq<Job>, field: SortField) {
    forall i, j :: 0 <= i < j < |s| ==> Greater(KeyOf(s[j], field), KeyOf(s[i], field))
  }

  /** Keys strictly decrease along `s`. */
  predicate StrictlyDescending(s: seq<Job>, field: SortField) {
    forall i, j :: 0 <= i < j < |s| ==> Greater(KeyOf(s[i], field), KeyOf(s[j], field))
  }

  /** A sorted permutation of a list with distinct comparable keys is strictly monotone:
      increasing for `Asc`, decreasing for `Desc`. */
  lemma SortedDistinctIsStrict(s: seq<Job>, r: seq<Job>, sort: Sort)
    requires !sort.field.OtherField?
    requires multiset(r) == multiset(s) && Sorted(r, sort)
    requires AllComparable(r, sort.field) && DistinctKeys(s, sort.field)
    ensures sort.direction == Asc ==> StrictlyAscending(r, sort.field)
    ensures sort.direction == Desc ==> StrictlyDescending(r, sort.field)
  {
    forall i, j | 0 <= i < j < |r|
      ensures KeyOf(r[i], sort.field) != KeyOf(r[j], sort.field)
    {
      assert r[i] in multiset(s) && r[j] in multiset(s);
      if r[i] == r[j] {
        RepeatedCountsTwice(r, i, j);
      }
    }
    forall i, j | 0 <= i < j < |r|
      ensures Greater(KeyOf(r[i], sort.field), KeyOf(r[j], sort.field))
           || Greater(KeyOf(r[j], sort.field), KeyOf(r[i], sort.field))
    {
      GreaterTotal(r[i], r[j], sort.field);
    }
  }

  /** Two non-empty strictly ascending lists with the same entries start alike. */
  lemma AscendingHeadsAgree(a: seq<Job>, b: seq<Job>, field: SortField)
    requires StrictlyAscending(a, field) && StrictlyAscending(b, field)
    requires multiset(a) == multiset(b) && |a| > 0 && |b| > 0
    ensures a[0] == b[0]
  {
    assert a[0] in multiset(b) && b[0] in multiset(a);
    var k :| 0 <= k < |b| && b[k] == a[0];
    var m :| 0 <= m < |a| && a[m] == b[0];
    if k > 0 {
      if m == 0 {
        GreaterIrreflexive(KeyOf(a[0], field));
      } else {
        GreaterAsymmetric(KeyOf(a[0], field), KeyOf(b[0], field));
      }
    }
  }

  /** Two strictly ascending lists with the same entries are the same list. */
  lemma {:induction false} StrictlyAscendingUnique(a: seq<Job>, b: seq<Job>, field: SortField)
    requires StrictlyAscending(a, field) && StrictlyAscending(b, field)
    requires multiset(a) == multiset(b)
    ensures a == b
    decreases |a|
  {
    assert |a| == |multiset(a)| == |multiset(b)| == |b|;
    if |a| > 0 {
      AscendingHeadsAgree(a, b, field);
      AscendingTail(a, field);
      AscendingTail(b, field);
      TailMultiset(a);
      TailMultiset(b);
      StrictlyAscendingUnique(a[1..], b[1..], field);
      assert a == [a[0]] + a[1..] && b == [b[0]] + b[1..];
    }
  }

  lemma AscendingTail(s: seq<Job>, field: SortField)
    requires StrictlyAscending(s, field) && |s| > 0
    ensures StrictlyAscending(s[1..], field)
  {
    var t := s[1..];
    forall i, j | 0 <= i < j < |t| ensures Greater(KeyOf(t[j], field), KeyOf(t[i], field)) {
      assert t[i] == s[i + 1] && t[j] == s[j + 1];
    }
  }

  /** Reversing a strictly descending list gives a strictly ascending one. */
  lemma ReverseOfDescending(s: seq<Job>, field: SortField)
    requires StrictlyDescending(s, field)
    ensures StrictlyAscending(Reverse(s), field)
  {
  }

  /** When no key is `NaN` and keys are pairwise distinct, ascending output strictly
      increases, descending output strictly decreases, and each is the other reversed. */
  lemma AscendingIsReversedDescending(s: seq<Job>, field: SortField)
    requires !field.OtherField? && AllComparable(s, field) && DistinctKeys(s, field)
    ensures StrictlyAscending(SortJobs(s, Sort(field, Asc)), field)
    ensures StrictlyDescending(SortJobs(s, Sort(field, Desc)), field)
    ensures SortJobs(s, Sort(field, Asc)) == Reverse(SortJobs(s, Sort(field, Desc)))
  {
    var up := SortJobs(s, Sort(field, Asc));
    var down := SortJobs(s, Sort(field, Desc));
    SortJobsSorted(s, Sort(field, Asc));
    SortJobsSorted(s, Sort(field, Desc));
    PermutationComparable(s, up, field);
    PermutationComparable(s, down, field);
    SortedDistinctIsStrict(s, up, Sort(field, Asc));
    SortedDistinctIsStrict(s, down, Sort(field, Desc));
    ReverseOfDescending(down, field);
    ReverseMultiset(down);
    StrictlyAscendingUnique(up, Reverse(down), field);
  }

  // ---------------------------------------------------------------- the pipeline

  /** `filteredAndSortedJobs`: the steps in source order, then the sort. */
  function Query(jobs: seq<Job>, term: string, f: Filters, sort: Sort): seq<Job> {
    SortJobs(RunStages(SourceOrder, jobs, term, f), sort)
  }

  lemma SourceOrderHasEveryStage()
    ensures forall st: Stage :: st in SourceOrder
  {
    forall st: Stage ensures st in SourceOrder {
      match st
      case SearchStage => assert SourceOrder[0] == st;
      case TypeStage => assert SourceOrder[1] == st;
      case ExperienceStage => assert SourceOrder[2] == st;
      case LocationStage => assert SourceOrder[3] == st;
      case SalaryStage => assert SourceOrder[4] == st;
    }
  }

  /** The output is a permutation of exactly the admitted input jobs: every returned job
      passes the search and every non-empty filter, and every input job that does is
      returned, as often as it occurs in the input. */
  lemma QueryIsFilteredPermutation(jobs: seq<Job>, term: string, f: Filters, sort: Sort)
    ensures multiset(Query(jobs, term, f, sort)) == multiset(Filter(jobs, AdmitsTest(term, f)))
    ensures forall x :: multiset(Query(jobs, term, f, sort))[x] == if Admits(x, term, f) then multiset(jobs)[x] else 0
    ensures forall x :: x in Query(jobs, term, f, sort) <==> x in jobs && Admits(x, term, f)
  {
    SourceOrderHasEveryStage();
    StageOrderIrrelevant(SourceOrder, jobs, term, f);
    FilterMultiset(jobs, AdmitsTest(term, f));
  }

  /** With no `NaN` key among the admitted jobs, the output is sorted by the comparator. */
  lemma QuerySorted(jobs: seq<Job>, term: string, f: Filters, sort: Sort)
    requires forall k :: 0 <= k < |jobs| && Admits(jobs[k], term, f) ==> Comparable(jobs[k], sort.field)
    ensures Sorted(Query(jobs, term, f, sort), sort)
  {
    SourceOrderHasEveryStage();
    StageOrderIrrelevant(SourceOrder, jobs, term, f);
    var kept := Filter(jobs, AdmitsTest(term, f));
    forall k | 0 <= k < |kept| ensures Comparable(kept[k], sort.field) {
      var j :| 0 <= j < |jobs| && jobs[j] == kept[k];
    }
    SortJobsSorted(kept, sort);
  }

  /** An empty search with every filter empty shows every job: a permutation of the
      input, of the same length. */
  lemma UnconstrainedQueryShowsAll(jobs: seq<Job>, sort: Sort)
    ensures multiset(Query(jobs, "", Filters("", "", "", ""), sort)) == multiset(jobs)
    ensures |Query(jobs, "", Filters("", "", "", ""), sort)| == |jobs|
  {
    var f := Filters("", "", "", "");
    SourceOrderHasEveryStage();
    StageOrderIrrelevant(SourceOrder, jobs, "", f);
    FilterKeepsAll(jobs, AdmitsTest("", f));
    assert |multiset(Query(jobs, "", f, sort))| == |multiset(jobs)|;
  }

  /** A term found (case-insensitively) in no title, company or skill yields nothing. */
  lemma AbsentTermYieldsNothing(jobs: seq<Job>, term: string, f: Filters, sort: Sort)
    requires term != ""
    requires forall k :: 0 <= k < |jobs| ==> !SearchHit(jobs[k], term)
    ensures Query(jobs, term, f, sort) == []
  {
    SourceOrderHasEveryStage();
    StageOrderIrrelevant(SourceOrder, jobs, term, f);
    FilterDropsAll(jobs, AdmitsTest(term, f));
  }

  /** For the location filter alone, the output holds exactly the jobs whose location
      contains the filter text, case-sensitively. */
  lemma LocationFilterAlone(jobs: seq<Job>, place: string, sort: Sort)
    ensures forall x :: x in Query(jobs, "", Filters("", "", place, ""), sort) <==> x in jobs && (place == "" || Contains(x.location, place))
  {
    QueryIsFilteredPermutation(jobs, "", Filters("", "", place, ""), sort);
  }

  // ---------------------------------------------------------------- concrete cases

  /** A search for "React" keeps a job whose skills include "React Native". */
  lemma SearchIsCaseInsensitiveSubstring(job: Job)
    requires "React Native" in job.skills
    ensures SearchHit(job, "React")
  {
    var k :| 0 <= k < |job.skills| && job.skills[k] == "React Native";
    var low := Lower("React Native");
    assert low[..5] == Lower("React");
    ContainsPrefix(low, 5);
  }

  /** The salary text of a generated job: "$<lo>,000 - $<hi>,000". */
  function SalaryRange(lo: string, hi: string): string {
    "$" + lo + ",000 - $" + hi + ",000"
  }

  lemma ThousandsDigits()
    ensures DigitsOf(",000") == "000" && DigitsOf(" - $") == "" && DigitsOf("$") == ""
  {
    DigitsOfAppend(",", "000");
    DigitsOfDigits("000");
  }

  lemma ThousandsValue()
    ensures AllDigits("000") && DecimalValue("000") == 0 && Pow10(3) == 1000
  {
    assert "000"[..2] == "00" && "00"[..1] == "0";
  }

  /** The digits of the text up to the upper bound: the lower bound and three zeros. */
  lemma LowerPartDigits(lo: string)
    requires AllDigits(lo)
    ensures DigitsOf("$" + lo + ",000 - $") == lo + "000"
  {
    ThousandsDigits();
    SeparatorDigits();
    DigitsOfAppend("$", lo);
    DigitsOfDigits(lo);
    DigitsOfAppend("$" + lo, ",000 - $");
  }

  lemma SeparatorDigits()
    ensures DigitsOf(",000 - $") == "000"
  {
    ThousandsDigits();
    assert ",000 - $" == ",000" + " - $";
    DigitsOfAppend(",000", " - $");
  }

  /** The digits of a range: both bounds, each followed by three zeros. */
  lemma SalaryRangeDigits(lo: string, hi: string)
    requires AllDigits(lo) && AllDigits(hi)
    ensures DigitsOf(SalaryRange(lo, hi)) == lo + "000" + hi + "000"
  {
    var front := "$" + lo + ",000 - $";
    ThousandsDigits();
    LowerPartDigits(lo);
    DigitsOfAppend(front + hi, ",000");
    DigitsOfAppend(front, hi);
    DigitsOfDigits(hi);
  }

  /** The key of a range reads both bounds, each followed by three zeros, as one number:
      the lower bound is shifted left past all the digits of the upper one. */
  lemma SalaryRangeKey(lo: string, hi: string)
    requires AllDigits(lo) && AllDigits(hi) && lo != ""
    ensures SalaryKey(SalaryRange(lo, hi)) == Some((DecimalValue(lo) * 1000 * Pow10(|hi|) + DecimalValue(hi)) * 1000)
  {
    SalaryRangeDigits(lo, hi);
    ThousandsValue();
    var d1 := lo + "000";
    var d2 := d1 + hi;
    DecimalValueAppend(lo, "000");
    assert DecimalValue(d1) == DecimalValue(lo) * 1000;
    DecimalValueAppend(d1, hi);
    assert DecimalValue(d2) == DecimalValue(lo) * 1000 * Pow10(|hi|) + DecimalValue(hi);
    DecimalValueAppend(d2, "000");
    assert DecimalValue(d2 + "000") == DecimalValue(d2) * 1000;
  }

  lemma Value120And160()
    ensures AllDigits("120") && DecimalValue("120") == 120
    ensures AllDigits("160") && DecimalValue("160") == 160
  {
    assert "120"[..2] == "12" && "12"[..1] == "1";
    assert "160"[..2] == "16" && "16"[..1] == "1";
  }

  lemma RangeText()
    ensures SalaryRange("120", "160") == "$120,000 - $160,000"
  {
  }

  /** "$120,000 - $160,000" reads as 120000160000. */
  lemma RangeSalaryReadsAsConcatenation()
    ensures SalaryKey("$120,000 - $160,000") == Some(120000160000)
  {
    Value120And160();
    SalaryRangeKey("120", "160");
    ThousandsValue();
    assert |"160"| == 3;
    assert (120 * 1000 * Pow10(3) + 160) * 1000 == 120000160000;
    RangeText();
  }

  /** Every key of at least 300000 lies in the "300k+" bucket and in no other. */
  lemma LargeKeyOnlyTopBucket(key: int)
    requires key >= 300000
    ensures forall i :: 0 <= i < |Buckets| ==> (InBucket(Some(key), Buckets[i]) <==> i == 5)
  {
  }

  /** So the range "$120,000 - $160,000" lies only in "300k+", not in "120k-160k". */
  lemma RangeSalaryOnlyTopBucket()
    ensures forall i :: 0 <= i < |Buckets| ==> (InBucket(SalaryKey("$120,000 - $160,000"), Buckets[i]) <==> i == 5)
  {
    RangeSalaryReadsAsConcatenation();
    LargeKeyOnlyTopBucket(120000160000);
  }

  /** An entry the comparator places after every entry of a list moves to its end. */
  lemma {:induction false} InsertAfter(x: Job, s: seq<Job>, cmp: (Job, Job) -> int)
    requires |s| > 0
    requires forall k :: 0 <= k < |s| ==> cmp(x, s[k]) > 0
    ensures Insert(x, s, cmp) == s + [x]
    decreases |s|
  {
    var rest := s[1..];
    assert Insert(x, s, cmp) == [s[0]] + Insert(x, rest, cmp);
    if |rest| == 0 {
      assert Insert(x, rest, cmp) == [x];
    } else {
      assert forall k :: 0 <= k < |rest| ==> rest[k] == s[k + 1];
      InsertAfter(x, rest, cmp);
    }
    assert s == [s[0]] + rest;
  }

  /** Three entries, each placed after the ones that follow it, come out reversed. */
  lemma ThreeReversedBy(a: Job, b: Job, c: Job, cmp: (Job, Job) -> int)
    requires cmp(b, c) > 0 && cmp(a, c) > 0 && cmp(a, b) > 0
    ensures InsertionSort([a, b, c], cmp) == [c, b, a]
  {
    var s1, s2, s3 := [c], [b, c], [a, b, c];
    assert s3[1..] == s2 && s2[1..] == s1 && s1[1..] == [];
    assert InsertionSort(s1, cmp) == [c];
    InsertAfter(b, [c], cmp);
    assert InsertionSort(s2, cmp) == [c, b];
    InsertAfter(a, [c, b], cmp);
  }

  /** Three jobs whose keys strictly decrease from the first to the last, sorted in
      descending order, come out reversed. */
  lemma ThreeReversed(a: Job, b: Job, c: Job, sort: Sort)
    requires Compare(b, c, sort) > 0 && Compare(a, c, sort) > 0 && Compare(a, b, sort) > 0
    ensures SortJobs([a, b, c], sort) == [c, b, a]
  {
    ThreeReversedBy(a, b, c, ComparatorOf(sort));
  }

  /** The date key of the first of a month. */
  lemma DateKeyOfFirst(year: string, month: string)
    requires |year| == 4 && |month| == 2 && AllDigits(year) && AllDigits(month)
    requires 1 <= DecimalValue(month) <= 12
    ensures DateKey(year + "-" + month + "-01") == Some(DecimalValue(year) * 10000 + DecimalValue(month) * 100 + 1)
  {
    var t := year + "-" + month + "-01";
    assert forall k :: 0 <= k < 4 ==> t[k] == year[k];
    assert t[5] == month[0] && t[6] == month[1] && t[8] == '0' && t[9] == '1';
    FourDigitsValue(year);
    TwoDigitsValue(month);
  }

  lemma MonthValues()
    ensures AllDigits("01") && AllDigits("02") && AllDigits("03")
    ensures DecimalValue("01") == 1 && DecimalValue("02") == 2 && DecimalValue("03") == 3
  {
    assert "01"[..1] == "0" && "02"[..1] == "0" && "03"[..1] == "0";
  }

  /** Jobs posted on the first of January, February and March 2024, sorted by date
      descending, come out March, February, January. */
  lemma DateDescendingExample(a: Job, b: Job, c: Job)
    requires a.postedDate == "2024-01-01" && b.postedDate == "2024-02-01" && c.postedDate == "2024-03-01"
    ensures SortJobs([a, b, c], Sort(PostedDate, Desc)) == [c, b, a]
  {
    FirstOfMonthKeys();
    var sort := Sort(PostedDate, Desc);
    assert Compare(b, c, sort) > 0 && Compare(a, c, sort) > 0 && Compare(a, b, sort) > 0;
    ThreeReversed(a, b, c, sort);
  }

  /** The keys of the first of January, February and March 2024 increase. */
  lemma FirstOfMonthKeys()
    ensures var k1, k2, k3 := DateKey("2024-01-01"), DateKey("2024-02-01"), DateKey("2024-03-01");
      k1.Some? && k2.Some? && k3.Some? && k1.value < k2.value < k3.value
  {
    assert DateKey("2024-01-01") == Some(20240101);
    assert DateKey("2024-02-01") == Some(20240201);
    assert DateKey("2024-03-01") == Some(20240301);
  }
}
