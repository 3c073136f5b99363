/** The profile page: the edit form filled from the user, the comma-separated skills
    field, saving the form, and the resume upload checks. */
module ProfilePage {
  import opened Types
  import opened Strings
  import opened Seqs

  /** The editable fields; `skills` is the comma-separated text. */
  datatype ProfileForm = ProfileForm(
    name: string, email: string, location: string, experience: string, desiredRole: string, skills: string)

  // ---------------------------------------------------------------- skills text

  /** The skills as the form shows them: joined by ", ". */
  function FormatSkills(skills: seq<string>): string {
    Join(skills, ", ")
  }

  /** A skill that survives a parse: non-empty, trimmed and free of commas. */
  predicate CleanSkill(s: string) {
    s != "" && Trimmed(s) && ',' !in s
  }

  /** `pieces.map(trim).filter(Boolean)`: each piece trimmed, the empty ones dropped. */
  function CleanPieces(pieces: seq<string>): (r: seq<string>)
    ensures |r| <= |pieces|
  {
    if |pieces| == 0 then []
    else
      var t := Trim(pieces[0]);
      (if t == "" then [] else [t]) + CleanPieces(pieces[1..])
  }

  /** Pieces free of commas clean into clean skills. */
  lemma {:induction false} CleanPiecesAreClean(pieces: seq<string>)
    requires forall k :: 0 <= k < |pieces| ==> ',' !in pieces[k]
    ensures forall k :: 0 <= k < |CleanPieces(pieces)| ==> CleanSkill(CleanPieces(pieces)[k])
  {
    if |pieces| > 0 {
      var t := Trim(pieces[0]);
      var rest := CleanPieces(pieces[1..]);
      CleanPiecesAreClean(pieces[1..]);
      if t != "" {
        TrimmedPieceIsClean(pieces[0]);
        assert CleanPieces(pieces) == [t] + rest;
      } else {
        assert CleanPieces(pieces) == rest;
      }
    }
  }

  /** A piece without a comma that does not trim away is a clean skill once trimmed. */
  lemma TrimmedPieceIsClean(piece: string)
    requires ',' !in piece && Trim(piece) != ""
    ensures CleanSkill(Trim(piece))
  {
  }

  /** Every piece trimmed, in order. */
  function TrimAll(pieces: seq<string>): (r: seq<string>)
    ensures |r| == |pieces| && forall k :: 0 <= k < |r| ==> r[k] == Trim(pieces[k])
  {
    seq(|pieces|, k requires 0 <= k < |pieces| => Trim(pieces[k]))
  }

  function NonEmpty(s: string): bool {
    s != ""
  }

  /** The one-pass definition is the two-stage pipeline: trim every piece, then keep the
      non-empty ones. */
  lemma {:induction false} CleanPiecesIsTrimThenFilter(pieces: seq<string>)
    ensures CleanPieces(pieces) == Filter(TrimAll(pieces), NonEmpty)
  {
    if |pieces| > 0 {
      CleanPiecesIsTrimThenFilter(pieces[1..]);
      assert TrimAll(pieces)[1..] == TrimAll(pieces[1..]);
    }
  }

  /** The saved skills: the text split at every ',', each piece trimmed, empty pieces
      dropped, order kept. */
  function ParseSkills(text: string): (r: seq<string>)
    ensures forall k :: 0 <= k < |r| ==> CleanSkill(r[k])
  {
    CleanPiecesAreClean(Split(text, ','));
    CleanPieces(Split(text, ','))
  }

  /** Text without a comma is one skill, trimmed, or none when it is blank. */
  lemma ParseWithoutComma(text: string)
    requires ',' !in text
    ensures ParseSkills(text) == (if IsBlank(text) then [] else [Trim(text)])
  {
    SplitWithoutSeparator(text, ',');
  }

  /** Parsing white space followed by clean skills joined with ", " gives back the skills. */
  lemma {:induction false} ParsePaddedJoin(pad: string, skills: seq<string>)
    requires IsBlank(pad) && ',' !in pad
    requires forall k :: 0 <= k < |skills| ==> CleanSkill(skills[k])
    ensures CleanPieces(Split(pad + Join(skills, ", "), ',')) == skills
    decreases |skills|
  {
    if |skills| == 0 {
      ParsePaddedNone(pad);
    } else if |skills| == 1 {
      ParsePaddedOne(pad, skills[0]);
    } else {
      ParsePaddedJoin(" ", skills[1..]);
      ParsePaddedStep(pad, skills);
    }
  }

  /** White space alone parses to no skills. */
  lemma ParsePaddedNone(pad: string)
    requires IsBlank(pad) && ',' !in pad
    ensures CleanPieces(Split(pad + Join([], ", "), ',')) == []
  {
    assert pad + Join([], ", ") == pad;
    SplitWithoutSeparator(pad, ',');
    CleanBlankPiece(pad);
  }

  /** A blank piece is dropped. */
  lemma CleanBlankPiece(pad: string)
    requires IsBlank(pad) && ',' !in pad
    ensures CleanPieces([pad]) == []
  {
    assert [pad][1..] == [];
  }

  /** White space and one clean skill parse to that skill. */
  lemma ParsePaddedOne(pad: string, skill: string)
    requires IsBlank(pad) && ',' !in pad && CleanSkill(skill)
    ensures CleanPieces(Split(pad + Join([skill], ", "), ',')) == [skill]
  {
    assert Join([skill], ", ") == skill;
    assert ',' !in pad + skill;
    SplitWithoutSeparator(pad + skill, ',');
    TrimDropsPadding(pad, skill);
  }

  /** The first skill of two or more is parsed in front of the parse of the others, which
      follow one space. */
  lemma ParsePaddedStep(pad: string, skills: seq<string>)
    requires IsBlank(pad) && ',' !in pad && |skills| >= 2
    requires forall k :: 0 <= k < |skills| ==> CleanSkill(skills[k])
    requires CleanPieces(Split(" " + Join(skills[1..], ", "), ',')) == skills[1..]
    ensures CleanPieces(Split(pad + Join(skills, ", "), ',')) == skills
  {
    var first, rest := pad + skills[0], " " + Join(skills[1..], ", ");
    assert CleanSkill(skills[0]);
    SplitPaddedJoin(pad, skills);
    TrimDropsPadding(pad, skills[0]);
    CleanPiecesCons(first, Split(rest, ','));
    assert skills == [skills[0]] + skills[1..];
  }

  /** A padded join of two or more skills splits into the padded first skill and the
      pieces of the others' join behind one space. */
  lemma SplitPaddedJoin(pad: string, skills: seq<string>)
    requires ',' !in pad && |skills| >= 2 && ',' !in skills[0]
    ensures Split(pad + Join(skills, ", "), ',')
      == [pad + skills[0]] + Split(" " + Join(skills[1..], ", "), ',')
  {
    var first := pad + skills[0];
    var j := Join(skills[1..], ", ");
    assert Join(skills, ", ") == skills[0] + ", " + j;
    JoinCommaSpace(pad, skills[0], j);
    SplitAtSeparator(first, ',', " " + j);
  }

  lemma JoinCommaSpace(pad: string, s: string, j: string)
    ensures pad + (s + ", " + j) == (pad + s) + [','] + (" " + j)
  {
  }

  /** Cleaning a first piece that trims to something non-empty keeps it in front. */
  lemma CleanPiecesCons(piece: string, pieces: seq<string>)
    requires Trim(piece) != ""
    ensures CleanPieces([piece] + pieces) == [Trim(piece)] + CleanPieces(pieces)
  {
    assert ([piece] + pieces)[1..] == pieces;
  }

  /** Formatting clean skills and parsing the text gives back the same list. */
  lemma ParseFormatRoundTrip(skills: seq<string>)
    requires forall k :: 0 <= k < |skills| ==> CleanSkill(skills[k])
    ensures ParseSkills(FormatSkills(skills)) == skills
  {
    ParsePaddedJoin("", skills);
    assert "" + Join(skills, ", ") == Join(skills, ", ");
  }

  /** Parsing is a normal form: formatting a parse and parsing again changes nothing. */
  lemma ParseIsStable(text: string)
    ensures ParseSkills(FormatSkills(ParseSkills(text))) == ParseSkills(text)
  {
    ParseFormatRoundTrip(ParseSkills(text));
  }

  // ---------------------------------------------------------------- save

  /** The form as the page fills it from the store's user; absent values become "". */
  function InitialForm(user: Option<User>): (f: ProfileForm)
    ensures user.None? ==> f == ProfileForm("", "", "", "", "", "")
    ensures user.Some? ==> f.name == user.value.name && f.skills == FormatSkills(user.value.skills)
    ensures user.Some? ==>
      && f.email == user.value.email && f.location == user.value.location
      && f.experience == user.value.experience
      && f.desiredRole == (if user.value.desiredRole.Some? then user.value.desiredRole.value else "")
  {
    match user
    case None => ProfileForm("", "", "", "", "", "")
    case Some(u) => ProfileForm(u.name, u.email, u.location, u.experience,
      if u.desiredRole.Some? then u.desiredRole.value else "", FormatSkills(u.skills))
  }

  /** Saving: the current user with the name, location, experience, desired role and
      parsed skills of the form. The form's email is not saved. */
  function SaveProfile(user: User, form: ProfileForm): (u: User)
    ensures u.name == form.name && u.location == form.location && u.experience == form.experience
    ensures u.desiredRole == Some(form.desiredRole)
    ensures forall k :: 0 <= k < |u.skills| ==> CleanSkill(u.skills[k])
  {
    user.(name := form.name, location := form.location, experience := form.experience,
      desiredRole := Some(form.desiredRole), skills := ParseSkills(form.skills))
  }

  /** Saving keeps the identity, the email, the picture and the resume; the form's email
      field has no effect. */
  lemma SaveKeepsIdentity(user: User, form: ProfileForm, email: string)
    ensures var u := SaveProfile(user, form);
      && u.id == user.id && u.email == user.email && u.profilePicture == user.profilePicture
      && u.resume == user.resume && u.resumeText == user.resumeText
    ensures SaveProfile(user, form) == SaveProfile(user, form.(email := email))
  {
  }

  /** Saving the untouched form gives back the user, when the user's skills are clean and
      a desired role is set. */
  lemma SaveUntouchedForm(user: User)
    requires user.desiredRole.Some?
    requires forall k :: 0 <= k < |user.skills| ==> CleanSkill(user.skills[k])
    ensures SaveProfile(user, InitialForm(Some(user))) == user
  {
    ParseFormatRoundTrip(user.skills);
  }

  // ---------------------------------------------------------------- resume upload

  const AllowedTypes: seq<string> := [
    "application/pdf",
    "application/msword",
    "application/vnd.openxmlformats-officedocument.wordprocessingml.document"]

  /** 5 MB in bytes. */
  const MaxResumeBytes: nat := 5 * 1024 * 1024

  const TypeMessage := "Please upload a PDF or Word document."
  const SizeMessage := "File size must be less than 5MB."

  datatype UploadOutcome = NoFile | Refused(message: string) | Stored(user: User)

  /** Choosing a file: nothing without a file; the type is checked before the size; an
      accepted file replaces the user's resume and its text. */
  function UploadResume(user: User, file: Option<ResumeFile>): (r: UploadOutcome)
    ensures r.NoFile? <==> file.None?
    ensures r.Stored? <==> file.Some? && file.value.mimeType in AllowedTypes && file.value.size <= MaxResumeBytes
    ensures r == Refused(TypeMessage) <==> file.Some? && file.value.mimeType !in AllowedTypes
    ensures r == Refused(SizeMessage) <==>
      file.Some? && file.value.mimeType in AllowedTypes && file.value.size > MaxResumeBytes
    ensures r.Stored? ==> r.user == user.(resume := file, resumeText := Some("Resume uploaded successfully"))
  {
    match file
    case None => NoFile
    case Some(f) =>
      if f.mimeType !in AllowedTypes then Refused(TypeMessage)
      else if f.size > MaxResumeBytes then Refused(SizeMessage)
      else Stored(user.(resume := file, resumeText := Some("Resume uploaded successfully")))
  }

  /** Exactly 5,242,880 bytes is accepted and one byte more is refused. */
  lemma ResumeSizeBoundary(user: User, name: string)
    ensures UploadResume(user, Some(ResumeFile(name, "application/pdf", 5242880))).Stored?
    ensures UploadResume(user, Some(ResumeFile(name, "application/pdf", 5242881))) == Refused(SizeMessage)
  {
  }

  /** A wrong type is reported as such even when the file is also too large. */
  lemma TypeCheckedBeforeSize(user: User, f: ResumeFile)
    requires f.mimeType !in AllowedTypes && f.size > MaxResumeBytes
    ensures UploadResume(user, Some(f)) == Refused(TypeMessage)
  {
  }

  /** An accepted upload changes only the resume and its text. */
  lemma UploadChangesOnlyResume(user: User, file: Option<ResumeFile>)
    requires UploadResume(user, file).Stored?
    ensures var u := UploadResume(user, file).user;
      && u.(resume := user.resume, resumeText := user.resumeText) == user
      && u.resume == file
  {
  }
}
