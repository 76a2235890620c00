/** The user record as the film service sees it: its display name, and the
    field constraints a user must meet. */
module UserModel {
  import opened Wrappers
  import opened Dates
  import opened Text

  datatype User = User(
    id: int,
    email: Option<string>,
    login: Option<string>,
    name: Option<string>,
    birthday: Option<Date>)

  /** `getName`: the login stands in for a null or blank name. The stored
      name is only read, never rewritten. What is shown is the name or the
      login, and it is blank only when it is the login. */
  function GetName(u: User): (r: Option<string>)
    ensures r == u.name || r == u.login
    ensures r.Some? && IsBlank(r.value) ==> r == u.login
  {
    if u.name == None || IsBlank(u.name.value) then u.login else u.name
  }

  /** `@NotBlank`: not null, and something other than code points up to
      U+0020 is left after `trim`. */
  function NotBlank(s: Option<string>): (r: bool)
    ensures r ==> s.Some? && s.value != []
    ensures s.Some? ==> (r <==> Trim(s.value) != [])
  {
    s.Some? && !TrimsToEmpty(s.value)
  }

  /** Null, white space alone and control characters alone all fail
      `@NotBlank`; a value with a space inside passes it. */
  lemma NotBlankExamples()
    ensures !NotBlank(None) && !NotBlank(Some(""))
    ensures !NotBlank(Some(" ")) && !NotBlank(Some(" \t\n"))
    ensures !NotBlank(Some([StartOfHeading]))
    ensures NotBlank(Some("a b"))
  {
    assert !IsTrimmable("a b"[0]);
  }

  /** `@NotBlank @Email`. The shape test belongs to the validation library,
      so it is a parameter. */
  function ValidEmail(email: Option<string>, isEmailShape: string -> bool): (r: bool)
    ensures r ==> email.Some? && email.value != [] && isEmailShape(email.value)
  {
    NotBlank(email) && isEmailShape(email.value)
  }

  /** `@NotBlank @Pattern("\\S+")`: one or more characters, no `\s` white
      space, and not only code points up to U+0020. */
  function ValidLogin(login: Option<string>): (r: bool)
    ensures r ==> login.Some? && login.value != []
    ensures r ==> forall i :: 0 <= i < |login.value| ==> !IsRegexSpace(login.value[i])
  {
    NotBlank(login) && MatchesNonSpaces(login.value)
  }

  /** `@PastOrPresent`: a birthday before today or today itself; a null
      birthday passes, as a null value passes every constraint but the
      not-blank ones. */
  function ValidBirthday(birthday: Option<Date>, today: Date): (r: bool)
    ensures r <==> birthday.None? || IsBefore(birthday.value, today) || birthday.value == today
  {
    birthday.None? || !IsAfter(birthday.value, today)
  }

  /** All field constraints of a user. A valid user always has a non-empty
      display name. */
  function ValidUser(u: User, today: Date, isEmailShape: string -> bool): (r: bool)
    ensures r ==> GetName(u).Some? && GetName(u).value != []
  {
    ValidEmail(u.email, isEmailShape) && ValidLogin(u.login) && ValidBirthday(u.birthday, today)
  }

  /** A null or blank name shows the login; a non-blank name shows itself. */
  lemma GetNameFallback(u: User)
    ensures u.name == None ==> GetName(u) == u.login
    ensures u.name.Some? && IsBlank(u.name.value) ==> GetName(u) == u.login
    ensures u.name.Some? && !IsBlank(u.name.value) ==> GetName(u) == u.name
  {
  }

  /** The empty name and a name of spaces are blank, so they fall back. */
  lemma GetNameBlankExamples(u: User)
    requires u.name == Some("") || u.name == Some("  \t")
    ensures GetName(u) == u.login
  {
  }

  /** Storing the display name as the name would not change what is shown,
      so computing it on every read is consistent. */
  lemma GetNameIsStable(u: User)
    ensures GetName(u.(name := GetName(u))) == GetName(u)
  {
  }

  /** The login and name tests disagree on what is blank, so a valid user
      can still show a blank display name: the login U+2000 passes
      `@NotBlank` and `\S+`, and `getName` shows it for a null name though
      `isBlank` calls it blank. */
  lemma ValidUserDisplayNameMayBeBlank(u: User, today: Date, isEmailShape: string -> bool)
    requires u.email == Some("a@b.c") && u.login == Some([EnQuad]) && u.name == None && u.birthday == None
    ensures isEmailShape("a@b.c") ==> ValidUser(u, today, isEmailShape) && IsBlank(GetName(u).value)
  {
    assert !IsTrimmable(u.login.value[0]) && !IsTrimmable(u.email.value[0]);
    assert ValidLogin(u.login) && NotBlank(u.email);
  }

  /** A birthday later than today makes a user invalid, whatever the other
      fields hold; today itself is allowed. */
  lemma BirthdayNotInFuture(u: User, today: Date, later: Date, isEmailShape: string -> bool)
    requires IsAfter(later, today)
    ensures !ValidUser(u.(birthday := Some(later)), today, isEmailShape)
    ensures ValidBirthday(Some(today), today)
  {
  }
}
