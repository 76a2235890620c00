/** The validation the film service applies: the four create rules, checked
    in a fixed order, and the lenient per-field merge of an update. */
module FilmRules {
  import opened Wrappers
  import opened Dates
  import opened Text
  import opened Errors
  import opened FilmModel

  const MaxDescriptionLength := 200

  /** Not null and not blank: what a name must be on create, and what a new
      name or description must be to replace the stored one on update. */
  predicate UsableText(s: Option<string>) {
    s.Some? && !IsBlank(s.value)
  }

  /** Not null and at most 200 UTF-16 code units; blank is fine. */
  predicate DescriptionFits(s: Option<string>) {
    s.Some? && Utf16Length(s.value) <= MaxDescriptionLength
  }

  /** Not null and in [1895-12-28, today], both ends included. */
  predicate InReleaseWindow(d: Option<Date>, today: Date) {
    d.Some? && !IsBefore(d.value, CinemaBirthday) && !IsAfter(d.value, today)
  }

  /** Not null and strictly positive. */
  predicate PositiveDuration(d: Option<Int32>) {
    d.Some? && d.value > 0
  }

  /** The create rules in the order they are checked. */
  const CreateRules: seq<Rule> := [NameRule, DescriptionRule, ReleaseDateRule, DurationRule]

  predicate Holds(rule: Rule, f: FilmFields, today: Date) {
    match rule
    case NameRule => UsableText(f.name)
    case DescriptionRule => DescriptionFits(f.description)
    case ReleaseDateRule => InReleaseWindow(f.releaseDate, today)
    case DurationRule => PositiveDuration(f.duration)
  }

  /** `check`: an if-else chain that throws a validation error at the first
      rule the film breaks. It passes exactly when every rule holds, and it
      fails with the earliest broken rule. */
  function Check(f: FilmFields, today: Date): (r: Outcome<Error>)
    ensures r == Pass <==> forall k :: 0 <= k < |CreateRules| ==> Holds(CreateRules[k], f, today)
    ensures r.Fail? ==>
      exists k :: 0 <= k < |CreateRules| && r.error == ValidationFailed(CreateRules[k])
        && !Holds(CreateRules[k], f, today)
        && forall j :: 0 <= j < k ==> Holds(CreateRules[j], f, today)
  {
    if f.name == None || IsBlank(f.name.value) then
      assert CreateRules[0] == NameRule;
      Fail(ValidationFailed(NameRule))
    else if f.description == None || Utf16Length(f.description.value) > MaxDescriptionLength then
      assert Holds(CreateRules[0], f, today) && CreateRules[1] == DescriptionRule;
      Fail(ValidationFailed(DescriptionRule))
    else if f.releaseDate == None
      || IsBefore(f.releaseDate.value, CinemaBirthday)
      || IsAfter(f.releaseDate.value, today) then
      assert Holds(CreateRules[1], f, today) && CreateRules[2] == ReleaseDateRule;
      Fail(ValidationFailed(ReleaseDateRule))
    else if f.duration == None || f.duration.value <= 0 then
      assert Holds(CreateRules[2], f, today) && CreateRules[3] == DurationRule;
      Fail(ValidationFailed(DurationRule))
    else
      Pass
  }

  /** The field-by-field copy of `update`: a field of the draft that passes
      that field's own test is taken, and a stored field changes only for
      such a draft field; the id and the likes are never touched. */
  function Merge(stored: FilmFields, draft: FilmFields, today: Date): (r: FilmFields)
    ensures r.id == stored.id && r.likes == stored.likes
    ensures UsableText(draft.name) ==> r.name == draft.name
    ensures r.name != stored.name ==> UsableText(draft.name)
    ensures UsableText(draft.description) ==> r.description == draft.description
    ensures r.description != stored.description ==> UsableText(draft.description)
    ensures InReleaseWindow(draft.releaseDate, today) ==> r.releaseDate == draft.releaseDate
    ensures r.releaseDate != stored.releaseDate ==> InReleaseWindow(draft.releaseDate, today)
    ensures PositiveDuration(draft.duration) ==> r.duration == draft.duration
    ensures r.duration != stored.duration ==> PositiveDuration(draft.duration)
  {
    stored.(
      name := if UsableText(draft.name) then draft.name else stored.name,
      description := if UsableText(draft.description) then draft.description else stored.description,
      releaseDate := if InReleaseWindow(draft.releaseDate, today) then draft.releaseDate else stored.releaseDate,
      duration := if PositiveDuration(draft.duration) then draft.duration else stored.duration)
  }

  /** The length limit is inclusive: 200 characters pass, 201 fail. An empty
      or blank description passes, a null one does not. */
  lemma DescriptionBoundary()
    ensures DescriptionFits(Some(seq(200, _ => 'a')))
    ensures !DescriptionFits(Some(seq(201, _ => 'a')))
    ensures DescriptionFits(Some("")) && DescriptionFits(Some("   "))
    ensures !DescriptionFits(None)
  {
  }

  /** Both ends of the release window are included: 1895-12-28 and today
      pass; 1895-12-27, any date after today and null fail. */
  lemma ReleaseDateBoundary(today: Date, later: Date)
    requires !IsBefore(today, CinemaBirthday)
    ensures InReleaseWindow(Some(CinemaBirthday), today)
    ensures InReleaseWindow(Some(today), today)
    ensures !InReleaseWindow(Some(Date(1895, 12, 27)), today)
    ensures IsAfter(later, today) ==> !InReleaseWindow(Some(later), today)
    ensures !InReleaseWindow(None, today)
  {
  }

  /** A duration must be at least one; zero, negatives and null fail. */
  lemma DurationBoundary()
    ensures PositiveDuration(Some(1))
    ensures !PositiveDuration(Some(0)) && !PositiveDuration(Some(-1)) && !PositiveDuration(None)
    ensures forall d: Int32 :: d <= 0 ==> !PositiveDuration(Some(d))
  {
  }

  /** A draft that carries nothing usable leaves the stored film as it is. */
  lemma MergeBlankDraftIsIdentity(stored: FilmFields, today: Date)
    ensures Merge(stored, BlankFilm, today) == stored
  {
  }

  /** Applying the same draft twice is the same as applying it once. */
  lemma MergeIdempotent(stored: FilmFields, draft: FilmFields, today: Date)
    ensures Merge(Merge(stored, draft, today), draft, today) == Merge(stored, draft, today)
  {
  }

  /** A draft that would pass create and has a non-blank description
      replaces every field but the id and the likes. */
  lemma MergeOfCreatableDraft(stored: FilmFields, draft: FilmFields, today: Date)
    requires Check(draft, today) == Pass
    requires !IsBlank(draft.description.value)
    ensures Merge(stored, draft, today) == draft.(id := stored.id, likes := stored.likes)
  {
  }

  /** A blank description passes create but is skipped by update. */
  lemma BlankDescriptionSkippedByUpdate(stored: FilmFields, draft: FilmFields, today: Date)
    requires draft.description == Some("")
    ensures DescriptionFits(draft.description)
    ensures Merge(stored, draft, today).description == stored.description
  {
  }

  /** Update keeps the name, release-date and duration rules: a film that
      met them before meets them after. */
  lemma MergePreservesRules(stored: FilmFields, draft: FilmFields, today: Date)
    ensures Holds(NameRule, stored, today) ==> Holds(NameRule, Merge(stored, draft, today), today)
    ensures Holds(ReleaseDateRule, stored, today) ==> Holds(ReleaseDateRule, Merge(stored, draft, today), today)
    ensures Holds(DurationRule, stored, today) ==> Holds(DurationRule, Merge(stored, draft, today), today)
  {
  }

  /** Update has no length limit on the description: a film that passed
      create can be given a 201-character description, after which it would
      no longer pass create. */
  lemma MergeMayBreakDescriptionRule(today: Date)
    requires !IsBefore(today, CinemaBirthday)
    ensures
      var stored := FilmFields(Some(1), Some("Film"), Some(""), Some(CinemaBirthday), Some(90), {});
      var draft := BlankFilm.(description := Some(seq(201, _ => 'a')));
      Check(stored, today) == Pass
      && Check(Merge(stored, draft, today), today) == Fail(ValidationFailed(DescriptionRule))
  {
    RepeatedLength('a', 201);
    var stored := FilmFields(Some(1), Some("Film"), Some(""), Some(CinemaBirthday), Some(90), {});
    var long: string := seq(201, _ => 'a');
    var merged := Merge(stored, BlankFilm.(description := Some(long)), today);
    assert !IsBlank("Film") by { assert !IsWhitespace("Film"[0]); }
    assert !IsBlank(long) by { assert !IsWhitespace(long[0]); }
    assert merged.name == Some("Film") && merged.description == Some(long);
  }
}
