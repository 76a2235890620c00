# Filmorate film service, modelled in Dafny

A model of the film-catalogue logic of the Filmorate service: the `Film`
record, the `User` display-name fallback and field constraints, and
`FilmService`, which validates new films, merges partial updates into stored
films and records users' likes.

- `wrappers.dfy` (`Wrappers`): `Option` for Java `null`, `Result` and
  `Outcome` for a return or a thrown exception.
- `text.dfy` (`Text`): `String.isBlank` over `Character.isWhitespace`, the
  trim-based blank test of the `@NotBlank` constraint, the regular
  expression `\S+`, and `String.length()` as UTF-16 code units.
- `dates.dfy` (`Dates`): `LocalDate` as a year-month-day triple with
  `compareTo`, `isBefore` and `isAfter`; the cinema's birthday 1895-12-28.
- `errors.dfy` (`Errors`): the three exception kinds (not found, conditions
  not met, validation) with a structured reason each, and their HTTP status.
- `film.dfy` (`FilmModel`): the mutable `Film` class with its setters,
  its like set, and equality and hashing by id alone.
- `user.dfy` (`UserModel`): `User`, `getName`, and the email, login and
  birthday constraints.
- `film_rules.dfy` (`FilmRules`): the four create rules checked in order
  (`Check`) and the per-field merge of an update (`Merge`).
- `catalogue.dfy` (`Catalogue`): every service operation as a function from
  the catalogue (films by id, known user ids, next film id) to its result
  and the catalogue after it, with the lemmas that relate the operations.
- `film_service.dfy` (`Service`): the `FilmService` class over a map from id
  to stored `Film` objects. Update and the like operations change the stored
  object in place, as the service does. Each method is proved to follow its
  `Catalogue` definition.

"Today" is a parameter everywhere the source calls `LocalDate.now()`.

Create rejects a null description (FilmService.java:128). Update puts no
length limit on the description (FilmService.java:67-69);
`FilmRules.MergeMayBreakDescriptionRule` shows the consequence.

## Model

| member | source | states |
|---|---|---|
| `Text.IsWhitespace` | src/main/java/ru/yandex/practicum/filmorate/service/FilmService.java:63 | `Character.isWhitespace`: every regex `\s` character is white space; the no-break spaces U+00A0, U+2007 and U+202F are not |
| `Text.IsBlank` | src/main/java/ru/yandex/practicum/filmorate/service/FilmService.java:63 | `String.isBlank`: the empty string is blank, and so is any string of regex `\s` characters |
| `Text.TrimStart` | src/main/java/ru/yandex/practicum/filmorate/model/User.java:11 | the leading half of `trim`: the rest is a suffix that is empty or starts with a code point above U+0020, and every dropped code point is at most U+0020 |
| `Text.TrimEnd` | src/main/java/ru/yandex/practicum/filmorate/model/User.java:11 | the trailing half of `trim`: the rest is a prefix that is empty or ends with a code point above U+0020, and every dropped code point is at most U+0020 |
| `Text.TrimsToEmpty` | src/main/java/ru/yandex/practicum/filmorate/model/User.java:11 | the `@NotBlank` test `trim().length() == 0`: true exactly when `trim` leaves nothing |
| `Text.MatchesNonSpaces` | src/main/java/ru/yandex/practicum/filmorate/model/User.java:16 | a string matching `\S+` is non-empty and holds no space, tab, newline or carriage return |
| `Text.BlankTestsDiffer` | src/main/java/ru/yandex/practicum/filmorate/model/User.java:15-25 | `isBlank` and the `@NotBlank` trim test disagree both ways: U+2000 is blank but does not trim to empty; U+0001 trims to empty but is not blank |
| `Text.LoginTestsIndependent` | src/main/java/ru/yandex/practicum/filmorate/model/User.java:15-16 | the two login constraints are independent: U+0001 matches `\S+` but trims to nothing, and "a b" survives `trim` but does not match `\S+` |
| `Text.Utf16Length` | src/main/java/ru/yandex/practicum/filmorate/service/FilmService.java:128 | `length()` counts UTF-16 units: between `|s|` and `2|s|`, and equal to `|s|` exactly when no code point is supplementary |
| `Dates.CompareTo` | src/main/java/ru/yandex/practicum/filmorate/service/FilmService.java:131-133 | `LocalDate.compareTo`: zero exactly for equal dates; an earlier year gives a negative value and a later year a positive one |
| `Dates.IsBefore` | src/main/java/ru/yandex/practicum/filmorate/service/FilmService.java:131-133 | `isBefore` never holds for equal dates, and within one month it is the order of the days |
| `Dates.IsAfter` | src/main/java/ru/yandex/practicum/filmorate/service/FilmService.java:131-133 | `isAfter(a,b)` holds exactly when `isBefore(b,a)` does |
| `Dates.BeforeIsChronological` | src/main/java/ru/yandex/practicum/filmorate/service/FilmService.java:131-133 | `isBefore` is the order by year, then month, then day |
| `Dates.Trichotomy` | src/main/java/ru/yandex/practicum/filmorate/service/FilmService.java:131-133 | `isAfter(a,b)` iff `isBefore(b,a)`; neither holds iff the dates are equal; never both |
| `Errors.Status` | src/main/java/ru/yandex/practicum/filmorate/exception/ErrorHandler.java:13-33 | not-found answers 404; conditions-not-met and validation errors answer 400 |
| `FilmModel.Film.constructor` | src/main/java/ru/yandex/practicum/filmorate/model/Film.java:16-22 | a fresh film has every field null and an empty like set |
| `FilmModel.WrapInt32` | src/main/java/ru/yandex/practicum/filmorate/model/Film.java:14 | Java `int` overflow: the result is in the 32-bit range, congruent to the input modulo 2^32, and equal to it when it already fits |
| `FilmModel.XorZero` | src/main/java/ru/yandex/practicum/filmorate/model/Film.java:14 | xor with zero over n bits is the identity on n-bit values |
| `FilmModel.SmallLongFolds` | src/main/java/ru/yandex/practicum/filmorate/model/Film.java:14 | for a `Long` in `[0, 2^31)` the high half is zero, so folding the halves with xor gives the value back |
| `FilmModel.LongHash` | src/main/java/ru/yandex/practicum/filmorate/model/Film.java:17 | `Long.hashCode`: a 32-bit value, equal to the id itself for ids in `[0, 2^31)` |
| `FilmModel.Film.Equals` | src/main/java/ru/yandex/practicum/filmorate/model/Film.java:14 | films compare equal by id alone, and equal films have equal hash codes |
| `FilmModel.Film.HashCode` | src/main/java/ru/yandex/practicum/filmorate/model/Film.java:14 | the generated hash is a 32-bit value computed from the id alone; a null id hashes to 102; an id `v` with `0 <= v < 2^31 - 59` hashes to `59 + v` |
| `FilmModel.Film.SetId` | src/main/java/ru/yandex/practicum/filmorate/model/Film.java:17 | the setter changes the id and no other field |
| `FilmModel.Film.SetName` | src/main/java/ru/yandex/practicum/filmorate/model/Film.java:18 | the setter changes the name and no other field |
| `FilmModel.Film.SetDescription` | src/main/java/ru/yandex/practicum/filmorate/model/Film.java:19 | the setter changes the description and no other field |
| `FilmModel.Film.SetReleaseDate` | src/main/java/ru/yandex/practicum/filmorate/model/Film.java:20 | the setter changes the release date and no other field |
| `FilmModel.Film.SetDuration` | src/main/java/ru/yandex/practicum/filmorate/model/Film.java:21 | the setter changes the duration and no other field |
| `FilmModel.Film.AddLike` | src/main/java/ru/yandex/practicum/filmorate/model/Film.java:22 | adding to the like set changes only that set, grows it by the user, and reports whether the user was new |
| `FilmModel.Film.RemoveLike` | src/main/java/ru/yandex/practicum/filmorate/model/Film.java:22 | removing from the like set changes only that set, drops the user, and reports whether the user was there |
| `FilmModel.EqualsIsEquivalence` | src/main/java/ru/yandex/practicum/filmorate/model/Film.java:14 | film equality is reflexive, symmetric and transitive, and holds exactly when the ids are equal |
| `UserModel.GetName` | src/main/java/ru/yandex/practicum/filmorate/model/User.java:24-26 | the shown name is the name or the login, and a blank shown name is always the login |
| `UserModel.NotBlank` | src/main/java/ru/yandex/practicum/filmorate/model/User.java:11 | `@NotBlank`: a passing value is present and non-empty, and a present value passes exactly when `trim` leaves something |
| `UserModel.NotBlankExamples` | src/main/java/ru/yandex/practicum/filmorate/model/User.java:11 | null, "", " ", " \t\n" and U+0001 fail `@NotBlank`; "a b" passes |
| `UserModel.ValidEmail` | src/main/java/ru/yandex/practicum/filmorate/model/User.java:11-13 | a valid email is present, non-empty and has the email shape |
| `UserModel.ValidLogin` | src/main/java/ru/yandex/practicum/filmorate/model/User.java:15-17 | a valid login is present, non-empty and holds no `\s` character |
| `UserModel.ValidBirthday` | src/main/java/ru/yandex/practicum/filmorate/model/User.java:21-22 | `@PastOrPresent`: a birthday is valid iff it is absent, before today or today |
| `UserModel.ValidUser` | src/main/java/ru/yandex/practicum/filmorate/model/User.java:11-26 | a user meeting the email, login and birthday constraints always shows a present, non-empty name |
| `UserModel.GetNameFallback` | src/main/java/ru/yandex/practicum/filmorate/model/User.java:24-26 | a null or blank name shows the login; a non-blank name shows itself |
| `UserModel.GetNameBlankExamples` | src/main/java/ru/yandex/practicum/filmorate/model/User.java:25 | the empty name and a name of spaces and tabs show the login |
| `UserModel.GetNameIsStable` | src/main/java/ru/yandex/practicum/filmorate/model/User.java:24-26 | storing the display name as the name would not change what is shown |
| `UserModel.ValidUserDisplayNameMayBeBlank` | src/main/java/ru/yandex/practicum/filmorate/model/User.java:15-25 | a valid user can still show a blank name: the login U+2000 passes `@NotBlank` and `\S+` but `isBlank` holds for it |
| `UserModel.BirthdayNotInFuture` | src/main/java/ru/yandex/practicum/filmorate/model/User.java:21-22 | every birthday after today makes the user invalid, whatever the other fields; today itself is a valid birthday |
| `FilmRules.Check` | src/main/java/ru/yandex/practicum/filmorate/service/FilmService.java:124-140 | the check passes iff name, description, release-date and duration rules all hold; a failure names the first broken rule in that order |
| `FilmRules.Merge` | src/main/java/ru/yandex/practicum/filmorate/service/FilmService.java:63-79 | id and likes are kept; each draft field passing its own test (non-blank name or description, release date in the window, positive duration) is taken, and a stored field changes only for such a draft field |
| `FilmRules.DescriptionBoundary` | src/main/java/ru/yandex/practicum/filmorate/service/FilmService.java:128 | 200 characters pass and 201 fail; empty and blank pass; null fails |
| `FilmRules.ReleaseDateBoundary` | src/main/java/ru/yandex/practicum/filmorate/service/FilmService.java:131-133 | 1895-12-28 and today pass; 1895-12-27, every date after today and null fail |
| `FilmRules.DurationBoundary` | src/main/java/ru/yandex/practicum/filmorate/service/FilmService.java:136 | 1 passes; 0, every negative value and null fail |
| `FilmRules.MergeBlankDraftIsIdentity` | src/main/java/ru/yandex/practicum/filmorate/service/FilmService.java:63-79 | a draft with every field null changes nothing |
| `FilmRules.MergeIdempotent` | src/main/java/ru/yandex/practicum/filmorate/service/FilmService.java:63-79 | applying the same draft twice equals applying it once |
| `FilmRules.MergeOfCreatableDraft` | src/main/java/ru/yandex/practicum/filmorate/service/FilmService.java:63-79 | a draft that passes create and has a non-blank description replaces every field but id and likes |
| `FilmRules.BlankDescriptionSkippedByUpdate` | src/main/java/ru/yandex/practicum/filmorate/service/FilmService.java:67-69 | an empty description passes create but update keeps the stored one |
| `FilmRules.MergePreservesRules` | src/main/java/ru/yandex/practicum/filmorate/service/FilmService.java:63-79 | a film meeting the name, release-date or duration rule still meets it after an update |
| `FilmRules.MergeMayBreakDescriptionRule` | src/main/java/ru/yandex/practicum/filmorate/service/FilmService.java:67-69 | an update can give a valid film a 201-character description, after which it fails the create check |
| `Catalogue.Find` | src/main/java/ru/yandex/practicum/filmorate/service/FilmService.java:26-33 | not-found exactly for an unknown id, otherwise the stored film |
| `Catalogue.Create` | src/main/java/ru/yandex/practicum/filmorate/service/FilmService.java:45-49 | success iff the check passes; a failure stores nothing; a success files the film under the next id and leaves the other films alone |
| `Catalogue.Update` | src/main/java/ru/yandex/practicum/filmorate/service/FilmService.java:51-81 | a null id fails with conditions-not-met, then an unknown id with not-found, both with no change; otherwise only the target becomes the merge |
| `Catalogue.CheckFilmAndUser` | src/main/java/ru/yandex/practicum/filmorate/service/FilmService.java:84-92 | passes iff both film and user are known; an unknown film is reported before an unknown user |
| `Catalogue.PutLike` | src/main/java/ru/yandex/practicum/filmorate/service/FilmService.java:83-102 | success iff film and user are known and the user has not liked the film; any failure is not-found with no change, and an unknown film is reported before an unknown user; success adds the user to that film's likes only |
| `Catalogue.DeleteLike` | src/main/java/ru/yandex/practicum/filmorate/service/FilmService.java:104-122 | success iff film and user are known and the user has liked the film; any failure is not-found with no change, and an unknown film is reported before an unknown user; success removes the user from that film's likes only |
| `Catalogue.PutLikeTwiceFails` | src/main/java/ru/yandex/practicum/filmorate/service/FilmService.java:96-99 | a second identical like fails as already liked and changes nothing |
| `Catalogue.DeleteLikeWithoutLikeFails` | src/main/java/ru/yandex/practicum/filmorate/service/FilmService.java:116-119 | removing a like that is not there fails as not liked and changes nothing |
| `Catalogue.PutThenDeleteRestores` | src/main/java/ru/yandex/practicum/filmorate/service/FilmService.java:83-122 | a successful like followed by its removal succeeds and restores the catalogue exactly |
| `Catalogue.DeleteThenPutRestores` | src/main/java/ru/yandex/practicum/filmorate/service/FilmService.java:83-122 | a successful removal followed by the same like succeeds and restores the catalogue exactly |
| `Catalogue.LikeCountMovesByOne` | src/main/java/ru/yandex/practicum/filmorate/service/FilmService.java:101-121 | a successful like adds exactly one to the film's like count; a successful removal takes exactly one away |
| `Catalogue.CreateThenFind` | src/main/java/ru/yandex/practicum/filmorate/service/FilmService.java:45-49 | a created film's id was unused and exceeds every stored id, and the film is then found under it |
| `Catalogue.CreateRejectsNothingStored` | src/main/java/ru/yandex/practicum/filmorate/service/FilmService.java:45-48 | a film that fails the check is rejected with that check's error and the catalogue is unchanged |
| `Catalogue.UpdateThenFind` | src/main/java/ru/yandex/practicum/filmorate/service/FilmService.java:51-81 | after an update the stored film is the merge, with the same id and likes |
| `Catalogue.OperationsKeepConsistent` | src/main/java/ru/yandex/practicum/filmorate/service/FilmService.java:45-122 | create, update and both like operations keep every film filed under its own id, below the next id |
| `Catalogue.OperationsKeepLikesKnown` | src/main/java/ru/yandex/practicum/filmorate/service/FilmService.java:89-101 | likes only ever name known users: update and the like operations keep this, and so does create when the new film's likes are known |
| `Service.FilmService.constructor` | src/main/java/ru/yandex/practicum/filmorate/service/FilmService.java:20-24 | the service starts with no films, the given users, and next id 1 |
| `Service.FilmService.StoredFilmsDistinct` | src/main/java/ru/yandex/practicum/filmorate/service/FilmService.java:94-101 | two stored ids hold two distinct objects, so an in-place change to one film leaves the others alone |
| `Service.FilmService.FindFilmById` | src/main/java/ru/yandex/practicum/filmorate/service/FilmService.java:26-33 | not-found exactly for an unknown id, otherwise the stored object itself, agreeing with `Catalogue.Find` |
| `Service.FilmService.Create` | src/main/java/ru/yandex/practicum/filmorate/service/FilmService.java:45-49 | follows `Catalogue.Create`; on success the same object is stored with its new id, on failure it is untouched |
| `Service.FilmService.Update` | src/main/java/ru/yandex/practicum/filmorate/service/FilmService.java:51-81 | follows `Catalogue.Update`, changing the stored object in place and returning it |
| `Service.FilmService.CopyUsableFields` | src/main/java/ru/yandex/practicum/filmorate/service/FilmService.java:63-79 | the four guarded setter calls leave the stored film equal to the merge of its old fields and the draft, even when the draft is the stored object |
| `Service.FilmService.PutLike` | src/main/java/ru/yandex/practicum/filmorate/service/FilmService.java:83-102 | follows `Catalogue.PutLike`, adding to the stored film's own like set |
| `Service.FilmService.DeleteLike` | src/main/java/ru/yandex/practicum/filmorate/service/FilmService.java:104-122 | follows `Catalogue.DeleteLike`, removing from the stored film's own like set |

## Left out

- `findAll` and `findPopular` only hand the call to the film storage. No storage implementation is part of this model, so there is no ranking to state.
- The film and user storage implementations are not part of this model. Storage is a map: `checkId` is key membership. Storage `create` gives the film the next id from a counter that starts at 1 and then files it. Storage `update` files the same object under the same id again.
- `Service.FilmService.Create` requires that the film object is not already stored. A request body is always a new object.
- The unused `putLike`/`deleteLike` of the storage interface are not modelled. The service changes the film's like set itself.
- The controllers, logging, dependency injection and the JSON mapping are not modelled. The mapping could fill a new film's like set; create stores whatever likes the object holds.
- Exception messages are not modelled as text. Each error carries a structured reason (which film, which user, which rule) instead.
- Ids are unbounded integers: Java `Long` width is used only in the hash code, which reduces the id modulo 2^64. Path ids are never null, so only the update body's id is optional.
- Dates are not checked to be calendar dates. `LocalDate` guarantees that, and the comparisons do not depend on it.
- The `@Email` shape test belongs to the validation library and is a parameter of `UserModel.ValidUser`. `@NotBlank` is modelled as the validation library checks it: the string, trimmed of code points up to U+0020, is not empty.
- User and friend operations (`UserService`, `UserStorage`) are not part of this model. The user storage shows up only as the set of known ids.
- Concurrent calls are not modelled: every operation runs alone.
