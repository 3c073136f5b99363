/** The sign-in / sign-up form: its validation chain, the email pattern, and the user
    record and dispatches of a successful submission. */
module AuthPage {
  import opened Types
  import opened Strings
  import opened JobContext

  datatype Mode = Login | SignUp

  /** The four text fields of the form. */
  datatype AuthForm = AuthForm(name: string, email: string, password: string, confirmPassword: string)

  /** A submission either reports one message or dispatches actions. */
  datatype Outcome = Rejected(message: string) | Accepted(actions: seq<Action>)

  const EmailMessage := "Please enter a valid email address"
  const PasswordMessage := "Password must be at least 6 characters long"
  const MismatchMessage := "Passwords do not match"
  const NameMessage := "Name is required for registration"

  // ---------------------------------------------------------------- email pattern

  /** A character the class `[^\s@]` admits. */
  predicate Plain(c: char) {
    !IsSpace(c) && c != '@'
  }

  predicate AllPlain(s: string) {
    forall k :: 0 <= k < |s| ==> Plain(s[k])
  }

  /** The pattern `^[^\s@]+@[^\s@]+\.[^\s@]+$` read directly: an '@' at `i` and a '.' at
      `j` cut the string into three non-empty runs of plain characters. */
  ghost predicate EmailPattern(s: string) {
    exists i, j :: 0 < i && i + 1 < j && j + 1 < |s| && s[i] == '@' && s[j] == '.'
      && AllPlain(s[..i]) && AllPlain(s[i + 1..j]) && AllPlain(s[j + 1..])
  }

  /** A '.' strictly inside `d`, with text on both sides. */
  predicate InnerDot(d: string) {
    exists j | 0 < j < |d| - 1 :: d[j] == '.'
  }

  /** The email check as the form computes it: split at the first '@', then both sides
      are plain and the domain has an inner '.'. */
  predicate ValidEmail(s: string) {
    var i := IndexOf(s, '@');
    0 < i < |s| && AllPlain(s[..i]) && AllPlain(s[i + 1..]) && InnerDot(s[i + 1..])
  }

  /** Every string the computed check accepts matches the pattern. */
  lemma ValidEmailMatchesPattern(s: string)
    requires ValidEmail(s)
    ensures EmailPattern(s)
  {
    var i := IndexOf(s, '@');
    var d := s[i + 1..];
    var jj :| 0 < jj < |d| - 1 && d[jj] == '.';
    var j := i + 1 + jj;
    assert s[j] == '.';
    assert s[i + 1..j] == d[..jj];
    assert s[j + 1..] == d[jj + 1..];
    assert AllPlain(d[..jj]) && AllPlain(d[jj + 1..]);
  }

  /** Every string the pattern matches passes the computed check: its '@' is the first one. */
  lemma PatternPassesValidEmail(s: string, i: int, j: int)
    requires 0 < i && i + 1 < j && j + 1 < |s| && s[i] == '@' && s[j] == '.'
    requires AllPlain(s[..i]) && AllPlain(s[i + 1..j]) && AllPlain(s[j + 1..])
    ensures ValidEmail(s)
  {
    assert forall k :: 0 <= k < i ==> s[k] == s[..i][k];
    assert IndexOf(s, '@') == i;
    var d := s[i + 1..];
    forall k | 0 <= k < |d| ensures Plain(d[k]) {
      if i + 1 + k < j {
        assert d[k] == s[i + 1..j][k];
      } else if i + 1 + k > j {
        assert d[k] == s[j + 1..][k - (j - i)];
      }
    }
    assert d[j - i - 1] == '.';
  }

  /** The computed check accepts exactly the strings the pattern matches. */
  lemma ValidEmailIsPattern(s: string)
    ensures ValidEmail(s) <==> EmailPattern(s)
  {
    if ValidEmail(s) {
      ValidEmailMatchesPattern(s);
    }
    if EmailPattern(s) {
      var i, j :| 0 < i && i + 1 < j && j + 1 < |s| && s[i] == '@' && s[j] == '.'
        && AllPlain(s[..i]) && AllPlain(s[i + 1..j]) && AllPlain(s[j + 1..]);
      PatternPassesValidEmail(s, i, j);
    }
  }

  /** An accepted email has exactly one '@', no white space, a non-empty part before the
      '@', and a '.' after it with text on both sides. */
  lemma AcceptedEmailShape(s: string)
    requires ValidEmail(s)
    ensures exists i | 0 < i < |s| :: s[i] == '@' && forall k :: 0 <= k < |s| && k != i ==> s[k] != '@'
    ensures forall k :: 0 <= k < |s| ==> !IsSpace(s[k])
    ensures exists j | IndexOf(s, '@') + 1 < j < |s| - 1 :: s[j] == '.'
  {
    var i := IndexOf(s, '@');
    var d := s[i + 1..];
    PlainAround(s, i);
    assert s[i] == '@';
    var jj :| 0 < jj < |d| - 1 && d[jj] == '.';
    assert s[i + 1 + jj] == '.';
  }

  /** Plain text on both sides of position `i` makes every other position plain. */
  lemma PlainAround(s: string, i: int)
    requires 0 <= i < |s| && AllPlain(s[..i]) && AllPlain(s[i + 1..])
    ensures forall k :: 0 <= k < |s| && k != i ==> Plain(s[k])
  {
    forall k | 0 <= k < |s| && k != i ensures Plain(s[k]) {
      if k < i { assert s[k] == s[..i][k]; } else { assert s[k] == s[i + 1..][k - i - 1]; }
    }
  }

  // ---------------------------------------------------------------- validation

  /** The checks in the order the form runs them; the first failure is reported. The
      password's length is its `length`, counted in UTF-16 code units. The confirmation
      and the name are checked only when signing up. */
  function Validate(mode: Mode, form: AuthForm): (r: Option<string>)
    ensures !ValidEmail(form.email) <==> r == Some(EmailMessage)
    ensures ValidEmail(form.email) && Utf16Length(form.password) < 6 <==> r == Some(PasswordMessage)
    ensures r == Some(MismatchMessage) <==>
      ValidEmail(form.email) && Utf16Length(form.password) >= 6 && mode == SignUp && form.password != form.confirmPassword
    ensures r == Some(NameMessage) <==>
      ValidEmail(form.email) && Utf16Length(form.password) >= 6 && mode == SignUp && form.password == form.confirmPassword
      && IsBlank(form.name)
    ensures r.None? <==>
      ValidEmail(form.email) && Utf16Length(form.password) >= 6
      && (mode == SignUp ==> form.password == form.confirmPassword && !IsBlank(form.name))
  {
    if !ValidEmail(form.email) then Some(EmailMessage)
    else if Utf16Length(form.password) < 6 then Some(PasswordMessage)
    else if mode == SignUp && form.password != form.confirmPassword then Some(MismatchMessage)
    else if mode == SignUp && Trim(form.name) == "" then Some(NameMessage)
    else None
  }

  /** Signing in never looks at the confirmation or the name. */
  lemma LoginIgnoresConfirmAndName(form: AuthForm, name: string, confirm: string)
    ensures Validate(Login, form) == Validate(Login, form.(name := name, confirmPassword := confirm))
  {
  }

  /** Six code units are enough; five are not. */
  lemma PasswordBoundary(form: AuthForm, mode: Mode)
    requires ValidEmail(form.email)
    ensures Utf16Length(form.password) == 6 ==> Validate(mode, form) != Some(PasswordMessage)
    ensures Utf16Length(form.password) == 5 ==> Validate(mode, form) == Some(PasswordMessage)
  {
  }

  /** Three emoji make six code units: the length check passes a password of three
      characters. */
  lemma AstralPasswordPasses(form: AuthForm, mode: Mode)
    requires ValidEmail(form.email) && form.password == "\U{1F600}\U{1F600}\U{1F600}"
    ensures |form.password| == 3 && Utf16Length(form.password) == 6
    ensures Validate(mode, form) != Some(PasswordMessage)
  {
    var p := form.password;
    assert p[1..] == "\U{1F600}\U{1F600}" && p[1..][1..] == "\U{1F600}";
    assert |Utf16(p[1..][1..])| == 2;
    assert |Utf16(p[1..])| == 4;
  }

  // ---------------------------------------------------------------- success

  /** The user built on success; `id` is the clock reading the form turns into text. The
      entered name is kept as typed, and an empty one falls back to the text before the '@'. */
  function NewUser(form: AuthForm, id: string): (u: User)
    ensures u.id == id && u.email == form.email
    ensures form.name != "" ==> u.name == form.name
    ensures form.name == "" ==> u.name == Before(form.email, '@')
    ensures u.skills == [] && u.experience == "" && u.location == ""
    ensures u.resume.None? && u.resumeText.None? && u.desiredRole.None? && u.profilePicture.None?
  {
    User(id, form.email, if form.name != "" then form.name else Before(form.email, '@'),
      None, None, None, [], None, "", "")
  }

  /** A submission: the first failed check's message, or the three dispatches of a
      successful sign-in. */
  function Submit(mode: Mode, form: AuthForm, id: string): (r: Outcome)
    ensures r.Rejected? <==> Validate(mode, form).Some?
    ensures r.Rejected? ==> r.message == Validate(mode, form).value
    ensures r.Accepted? ==> r.actions == [SetUser(Some(NewUser(form, id))), SetAuthenticated(true), SetCurrentPage("profile")]
  {
    match Validate(mode, form)
    case Some(message) => Rejected(message)
    case None => Accepted([SetUser(Some(NewUser(form, id))), SetAuthenticated(true), SetCurrentPage("profile")])
  }

  /** An accepted user always has a non-empty name without an '@' taken from the email
      when the form's name is empty. */
  lemma AcceptedUserHasName(mode: Mode, form: AuthForm, id: string)
    requires Submit(mode, form, id).Accepted?
    ensures NewUser(form, id).name != ""
    ensures form.name == "" ==> '@' !in NewUser(form, id).name && form.email == NewUser(form, id).name + form.email[|NewUser(form, id).name|..]
  {
    var i := IndexOf(form.email, '@');
    assert |Before(form.email, '@')| == i;
  }

  /** A whitespace-only name is rejected on sign-up once the earlier checks pass; on
      sign-in it is accepted and becomes the user's name as typed. */
  lemma BlankNameOnSignUp(form: AuthForm, id: string)
    requires ValidEmail(form.email) && Utf16Length(form.password) >= 6 && form.password == form.confirmPassword
    requires form.name != "" && IsBlank(form.name)
    ensures Submit(SignUp, form, id) == Rejected(NameMessage)
    ensures Submit(Login, form, id).Accepted? && NewUser(form, id).name == form.name
  {
  }

  /** A successful submission signs the user in and moves to the profile page, and leaves
      every other field of the store as it was. */
  lemma AcceptedSignsIn(s: JobState, mode: Mode, form: AuthForm, id: string)
    requires Submit(mode, form, id).Accepted?
    ensures ReduceAll(s, Submit(mode, form, id).actions)
      == s.(user := Some(NewUser(form, id)), isAuthenticated := true, currentPage := "profile")
  {
    var acts := Submit(mode, form, id).actions;
    assert acts[1..] == [SetAuthenticated(true), SetCurrentPage("profile")];
    ReduceAllPair(Reduce(s, acts[0]), SetAuthenticated(true), SetCurrentPage("profile"));
  }
}
