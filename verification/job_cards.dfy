/** The logic shared by the three job cards: the saved flag and its toggle, the skill
    match percentage and the badges it drives, the description excerpt and the skill
    chips. */
module JobCards {
  import opened Types
  import opened Strings
  import opened Seqs
  import opened JobContext

  // ---------------------------------------------------------------- saving

  /** `savedJobs.some(saved => saved.id === job.id)`. */
  predicate IsSaved(saved: seq<Job>, job: Job) {
    exists k | 0 <= k < |saved| :: saved[k].id == job.id
  }

  /** No two saved jobs share an id. */
  predicate UniqueIds(saved: seq<Job>) {
    forall a, b :: 0 <= a < b < |saved| ==> saved[a].id != saved[b].id
  }

  /** The action the save button dispatches: unsave by id when saved, else save. */
  function SaveToggle(s: JobState, job: Job): (a: Action)
    ensures a.UnsaveJob? <==> IsSaved(s.savedJobs, job)
    ensures a.UnsaveJob? ==> a.id == job.id
    ensures a.SaveJob? ==> a.job == job
    ensures a.UnsaveJob? || a.SaveJob?
  {
    if IsSaved(s.savedJobs, job) then UnsaveJob(job.id) else SaveJob(job)
  }

  /** Pressing the button flips the card's saved flag. */
  lemma ToggleFlipsSaved(s: JobState, job: Job)
    ensures IsSaved(Reduce(s, SaveToggle(s, job)).savedJobs, job) <==> !IsSaved(s.savedJobs, job)
  {
    var t := Reduce(s, SaveToggle(s, job));
    if IsSaved(s.savedJobs, job) {
      UnsaveJobRemovesId(s, job.id);
    } else {
      assert t.savedJobs[|s.savedJobs|] == job;
    }
  }

  /** Saving only through the toggle never produces two saved jobs with one id. */
  lemma ToggleKeepsIdsUnique(s: JobState, job: Job)
    requires UniqueIds(s.savedJobs)
    ensures UniqueIds(Reduce(s, SaveToggle(s, job)).savedJobs)
  {
    var t := Reduce(s, SaveToggle(s, job)).savedJobs;
    if IsSaved(s.savedJobs, job) {
      var p := KeepOtherIds(job.id);
      ToggleSavedJob(s, job);
      FilterMultiset(s.savedJobs, p);
      forall a, b | 0 <= a < b < |t| ensures t[a].id != t[b].id {
        if t[a].id == t[b].id {
          assert t[a] in multiset(t) && t[b] in multiset(t);
          var i :| 0 <= i < |s.savedJobs| && s.savedJobs[i] == t[a];
          var j :| 0 <= j < |s.savedJobs| && s.savedJobs[j] == t[b];
          if i == j {
            RepeatedCountsTwice(t, a, b);
            DistinctIdsOnce(s.savedJobs, i);
          }
        }
      }
    } else {
      ToggleUnsavedJob(s, job);
      forall a, b | 0 <= a < b < |t| ensures t[a].id != t[b].id {
        if b == |s.savedJobs| {
          assert t[a] == s.savedJobs[a];
        } else {
          assert t[a] == s.savedJobs[a] && t[b] == s.savedJobs[b];
        }
      }
    }
  }

  /** With unique ids, every saved job occurs exactly once. */
  lemma DistinctIdsOnce(saved: seq<Job>, i: int)
    requires UniqueIds(saved) && 0 <= i < |saved|
    ensures multiset(saved)[saved[i]] == 1
  {
    assert saved == saved[..i] + [saved[i]] + saved[i + 1..];
    assert saved[i] !in saved[..i];
    assert saved[i] !in saved[i + 1..];
  }

  /** Pressing the button twice on a job that was not saved restores the store. */
  lemma DoubleToggleFromUnsaved(s: JobState, job: Job)
    requires !IsSaved(s.savedJobs, job)
    ensures var t := Reduce(s, SaveToggle(s, job)); Reduce(t, SaveToggle(t, job)) == s
  {
    ToggleFlipsSaved(s, job);
    forall k | 0 <= k < |s.savedJobs| ensures s.savedJobs[k].id != job.id {
    }
    SaveThenUnsaveRestores(s, job);
    ReduceAllPair(s, SaveJob(job), UnsaveJob(job.id));
  }

  /** With unique ids, unsaving the id of a saved job removes that one job and nothing else. */
  lemma UnsaveUniqueRemovesOne(saved: seq<Job>, i: int)
    requires UniqueIds(saved) && 0 <= i < |saved|
    ensures multiset(Filter(saved, KeepOtherIds(saved[i].id))) == multiset(saved) - multiset{saved[i]}
  {
    var job := saved[i];
    FilterMultiset(saved, KeepOtherIds(job.id));
    DistinctIdsOnce(saved, i);
  }

  /** Pressing it twice on a saved job (the only one with its id) keeps the same saved
      jobs, now with that job last. */
  lemma DoubleToggleFromSaved(s: JobState, i: int)
    requires UniqueIds(s.savedJobs) && 0 <= i < |s.savedJobs|
    ensures var job := s.savedJobs[i];
      var t := Reduce(s, SaveToggle(s, job)); var u := Reduce(t, SaveToggle(t, job));
      && multiset(u.savedJobs) == multiset(s.savedJobs)
      && u.savedJobs[|u.savedJobs| - 1] == job
  {
    var job := s.savedJobs[i];
    var rest := Filter(s.savedJobs, KeepOtherIds(job.id));
    UnsaveThenSaveOne(s.savedJobs, i);
    ToggleSavedJob(s, job);
    ToggleUnsavedJob(s.(savedJobs := rest), job);
  }

  /** The toggle on a saved job dispatches the unsave. */
  lemma ToggleSavedJob(s: JobState, job: Job)
    requires IsSaved(s.savedJobs, job)
    ensures Reduce(s, SaveToggle(s, job)) == s.(savedJobs := Filter(s.savedJobs, KeepOtherIds(job.id)))
  {
  }

  /** The toggle on a job not saved dispatches the save. */
  lemma ToggleUnsavedJob(s: JobState, job: Job)
    requires !IsSaved(s.savedJobs, job)
    ensures Reduce(s, SaveToggle(s, job)) == s.(savedJobs := s.savedJobs + [job])
  {
  }

  /** Unsaving the id of a job saved once and saving the job again gives the same saved
      jobs; in between the job is not saved. */
  lemma UnsaveThenSaveOne(saved: seq<Job>, i: int)
    requires UniqueIds(saved) && 0 <= i < |saved|
    ensures var rest := Filter(saved, KeepOtherIds(saved[i].id));
      && !IsSaved(rest, saved[i])
      && multiset(rest + [saved[i]]) == multiset(saved)
  {
    var job := saved[i];
    var rest := Filter(saved, KeepOtherIds(job.id));
    KeepOtherIdsFilter(saved, job.id);
    UnsaveUniqueRemovesOne(saved, i);
    assert multiset(rest + [job]) == multiset(rest) + multiset{job};
  }

  // ---------------------------------------------------------------- skill match

  /** Two lowercased skills are related when either contains the other. */
  predicate Related(a: string, b: string) {
    Contains(a, b) || Contains(b, a)
  }

  lemma RelatedSymmetric(a: string, b: string)
    ensures Related(a, b) <==> Related(b, a)
  {
  }

  /** A lowercased user skill matches when it is related to some lowercased job skill. */
  predicate Matches(userSkill: string, jobSkills: seq<string>) {
    exists k | 0 <= k < |jobSkills| :: Related(Lower(userSkill), Lower(jobSkills[k]))
  }

  function MatchTest(jobSkills: seq<string>): string -> bool {
    u => Matches(u, jobSkills)
  }

  /** How many user skills match (a user skill listed twice counts twice). */
  function MatchCount(userSkills: seq<string>, jobSkills: seq<string>): (n: nat)
    ensures n <= |userSkills|
  {
    |Filter(userSkills, MatchTest(jobSkills))|
  }

  /** `Math.round(n / d)` for non-negative `n`: halves round up. */
  function RoundHalfUp(n: nat, d: nat): (r: nat)
    requires d > 0
    ensures 2 * d * r <= 2 * n + d < 2 * d * (r + 1)
  {
    (2 * n + d) / (2 * d)
  }

  /** The match percentage, `None` for `NaN`: 0 without a user or without user skills;
      otherwise the matching user skills over the job's skills, in percent, rounded,
      which is `NaN` when the job lists no skill. */
  function SkillMatch(user: Option<User>, job: Job): (r: Option<int>)
    ensures user.None? || |user.value.skills| == 0 ==> r == Some(0)
    ensures r.None? <==> user.Some? && |user.value.skills| > 0 && |job.skills| == 0
    ensures r.Some? ==> r.value >= 0
    ensures r.Some? && r.value > 0 ==> user.Some? && MatchCount(user.value.skills, job.skills) > 0
  {
    if user.None? || |user.value.skills| == 0 then Some(0)
    else if |job.skills| == 0 then None
    else Some(RoundHalfUp(100 * MatchCount(user.value.skills, job.skills), |job.skills|))
  }

  /** The "% Match" badge: shown with a user and a positive percentage. */
  predicate ShowsMatchBadge(user: Option<User>, job: Job) {
    var m := SkillMatch(user, job);
    user.Some? && m.Some? && m.value > 0
  }

  /** The "hot job" highlight of the richer card: a percentage above 70. */
  predicate IsHot(user: Option<User>, job: Job) {
    var m := SkillMatch(user, job);
    m.Some? && m.value > 70
  }

  /** `a * b <= a * c` for a non-negative `a` and `b <= c`. */
  lemma MulMonotone(a: int, b: int, c: int)
    requires a >= 0 && b <= c
    ensures a * b <= a * c
  {
    assert a * c - a * b == a * (c - b);
  }

  /** The rounded quotient reaches `t` exactly when `n / d` is at least `t - 1/2`. */
  lemma RoundAtLeast(n: nat, d: nat, t: int)
    requires d > 0
    ensures RoundHalfUp(n, d) >= t <==> (2 * t - 1) * d <= 2 * n
  {
    var r := RoundHalfUp(n, d);
    if r >= t {
      MulMonotone(2 * d, t, r);
    } else {
      MulMonotone(2 * d, r + 1, t);
    }
    assert 2 * d * t == (2 * t - 1) * d + d;
  }

  /** Some user skill matches exactly when the match count is positive. */
  lemma MatchCountPositive(userSkills: seq<string>, jobSkills: seq<string>)
    ensures MatchCount(userSkills, jobSkills) > 0 <==>
      exists k | 0 <= k < |userSkills| :: Matches(userSkills[k], jobSkills)
  {
    var p := MatchTest(jobSkills);
    var f := Filter(userSkills, p);
    if exists k | 0 <= k < |userSkills| :: Matches(userSkills[k], jobSkills) {
      var k :| 0 <= k < |userSkills| && Matches(userSkills[k], jobSkills);
      assert p(userSkills[k]);
      assert userSkills[k] in f;
    } else {
      forall k | 0 <= k < |userSkills| ensures !p(userSkills[k]) {
      }
      FilterDropsAll(userSkills, p);
    }
  }

  /** With a user who lists skills and a job that lists skills, the percentage reaches
      `t` exactly when `200 * matches >= (2t - 1) * jobSkills`. */
  lemma PercentAtLeast(user: User, job: Job, t: int)
    requires |user.skills| > 0 && |job.skills| > 0
    ensures SkillMatch(Some(user), job).Some?
    ensures SkillMatch(Some(user), job).value >= t <==>
      (2 * t - 1) * |job.skills| <= 200 * MatchCount(user.skills, job.skills)
  {
    var m := MatchCount(user.skills, job.skills);
    var d := |job.skills|;
    RoundAtLeast(100 * m, d, t);
  }

  /** The badge appears iff the user lists a skill that matches, and there are at most
      200 job skills per matching user skill (below that the percentage rounds to 0). */
  lemma BadgeIffSomeSkillMatches(user: Option<User>, job: Job)
    ensures ShowsMatchBadge(user, job) <==>
      && user.Some? && |job.skills| > 0
      && (exists k | 0 <= k < |user.value.skills| :: Matches(user.value.skills[k], job.skills))
      && |job.skills| <= 200 * MatchCount(user.value.skills, job.skills)
  {
    if user.Some? {
      MatchCountPositive(user.value.skills, job.skills);
      if |user.value.skills| > 0 && |job.skills| > 0 {
        PercentAtLeast(user.value, job, 1);
      }
    }
  }

  /** A job is hot iff at least 141 user skills match for every 200 job skills. */
  lemma HotIffMostSkillsMatch(user: Option<User>, job: Job)
    ensures IsHot(user, job) <==>
      && user.Some? && |user.value.skills| > 0 && |job.skills| > 0
      && 141 * |job.skills| <= 200 * MatchCount(user.value.skills, job.skills)
  {
    if user.Some? && |user.value.skills| > 0 && |job.skills| > 0 {
      PercentAtLeast(user.value, job, 71);
    }
  }

  /** The percentage counts user skills, not job skills: when every user skill matches it
      is above 100 exactly when the user lists at least 201 skills per 200 job skills. */
  lemma AllMatchingExceedsHundred(user: User, job: Job)
    requires |user.skills| > 0 && |job.skills| > 0
    requires forall k :: 0 <= k < |user.skills| ==> Matches(user.skills[k], job.skills)
    ensures SkillMatch(Some(user), job).Some?
    ensures SkillMatch(Some(user), job).value > 100 <==> 201 * |job.skills| <= 200 * |user.skills|
  {
    FilterKeepsAll(user.skills, MatchTest(job.skills));
    PercentAtLeast(user, job, 101);
  }

  /** The "NEW" badge: the parsed posting time (milliseconds, `None` for an invalid
      date) is later than seven days before now. */
  predicate IsNewJob(postedMs: Option<int>, nowMs: int) {
    postedMs.Some? && postedMs.value > nowMs - 604800000
  }

  /** An invalid date is never new; a posting stays new for exactly seven days. */
  lemma NewJobWindow(postedMs: Option<int>, nowMs: int)
    ensures postedMs.None? ==> !IsNewJob(postedMs, nowMs)
    ensures postedMs.Some? ==> (IsNewJob(postedMs, nowMs) <==> nowMs < postedMs.value + 7 * 24 * 60 * 60 * 1000)
  {
  }

  // ---------------------------------------------------------------- text

  /** The richer cards' description, as the code units a JavaScript string holds: the
      first 120 units and "..." when there are more, else the whole text. On text in the
      Basic Multilingual Plane this is the first 120 characters and "...". */
  function Excerpt(d: string): (r: seq<CodeUnit>)
    ensures Utf16Length(d) <= 120 ==> r == Utf16(d)
    ensures Utf16Length(d) > 120 ==> |r| == 123 && r[..120] == Utf16(d)[..120] && r[120..] == Utf16("...")
    ensures InBmp(d) ==> r == Utf16(if |d| > 120 then d[..120] + "..." else d)
  {
    BmpCut(d, if |d| < 120 then |d| else 120);
    Cut(Utf16(d))
  }

  /** On text in the Basic Multilingual Plane, cutting the characters and cutting the
      code units at `n` and appending "..." give the same units. */
  lemma BmpCut(d: string, n: nat)
    requires n <= |d|
    ensures InBmp(d) ==> Utf16(d[..n] + "...") == Utf16(d)[..n] + Utf16("...")
  {
    if InBmp(d) {
      Utf16BmpPrefix(d, n);
      Utf16Append(d[..n], "...");
    }
  }

  /** `text.length > 120 ? text.substring(0, 120) + '...' : text` on code units. */
  function Cut(u: seq<CodeUnit>): (r: seq<CodeUnit>)
    ensures |r| <= 123
  {
    if |u| > 120 then u[..120] + Utf16("...") else u
  }

  /** Excerpting an excerpt changes nothing. */
  lemma ExcerptIdempotent(d: string)
    ensures Cut(Excerpt(d)) == Excerpt(d)
  {
    var e := Excerpt(d);
    if |e| > 120 {
      assert e[..120] + Utf16("...") == e;
    }
  }

  /** The plain card's description, as code units: the first 120 units (all of them when
      there are fewer), then "..." always. On text in the Basic Multilingual Plane these
      are the first 120 characters. */
  function BriefExcerpt(d: string): (r: seq<CodeUnit>)
    ensures |r| == (if Utf16Length(d) < 120 then Utf16Length(d) else 120) + 3
    ensures r[..|r| - 3] == Utf16(d)[..|r| - 3] && r[|r| - 3..] == Utf16("...")
    ensures InBmp(d) ==> r == Utf16(d[..if |d| < 120 then |d| else 120] + "...")
  {
    var u := Utf16(d);
    var n := if |u| < 120 then |u| else 120;
    BmpCut(d, if |d| < 120 then |d| else 120);
    u[..n] + Utf16("...")
  }

  /** The two excerpts agree on long descriptions; on a short one the plain card still
      appends "...". */
  lemma ExcerptsCompared(d: string)
    ensures Utf16Length(d) > 120 ==> BriefExcerpt(d) == Excerpt(d)
    ensures Utf16Length(d) <= 120 ==> BriefExcerpt(d) == Excerpt(d) + Utf16("...")
  {
    var u := Utf16(d);
    if |u| <= 120 {
      assert u[..|u|] == u;
    }
  }

  /** A description of 119 letters and one emoji is 121 code units long, so both
      excerpts cut between the emoji's two surrogates and keep only the first. */
  lemma ExcerptSplitsSurrogatePair(d: string)
    requires |d| == 120 && d[119] == '\U{1F600}'
    requires forall k :: 0 <= k < 119 ==> d[k] == 'a'
    ensures Utf16Length(d) == 121
    ensures Excerpt(d)[119] == 0xD83D && Excerpt(d)[120..] == Utf16("...")
  {
    Utf16Append(d[..119], d[119..]);
    assert d[..119] + d[119..] == d;
    Utf16BmpPrefix(d[..119], 119);
    assert d[..119][..119] == d[..119];
    assert Utf16(d[119..]) == [0xD83D, 0xDE00];
  }

  /** The skill chips: the first `limit` skills, and a "+n" chip for the rest. */
  function ChipRow(skills: seq<string>, limit: nat): (r: (seq<string>, Option<nat>))
    ensures r.1.Some? <==> |skills| > limit
    ensures |r.0| <= |skills| && r.0 == skills[..|r.0|]
    ensures r.1.None? ==> r.0 == skills
    ensures r.1.Some? ==> |r.0| == limit && |r.0| + r.1.value == |skills|
  {
    if |skills| > limit then (skills[..limit], Some(|skills| - limit)) else (skills, None)
  }

  /** The chips and the overflow count account for every skill, whatever the limit:
      the richer cards use 4, the plain card 3. */
  lemma ChipsAccountForAll(skills: seq<string>, limit: nat)
    ensures var r := ChipRow(skills, limit);
      |r.0| + (if r.1.Some? then r.1.value else 0) == |skills|
      && skills == r.0 + skills[|r.0|..]
  {
  }
}
