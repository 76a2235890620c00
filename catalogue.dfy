/** The film service as a function of the catalogue it works on: the stored
    films by id, the ids the user storage knows, and the next id the film
    storage will hand out. Each operation gives its result and the catalogue
    after it; the service class is proved to follow these definitions. */
module Catalogue {
  import opened Wrappers
  import opened Dates
  import opened Errors
  import opened FilmModel
  import opened FilmRules

  datatype Store = Store(films: map<int, FilmFields>, users: set<int>, nextId: int)

  /** What an operation returns, paired with the catalogue after it. */
  datatype Reply<+T> = Reply(outcome: T, after: Store)

  /** The storage invariant: every film is filed under its own id, and
      every id in use is below the next one to be handed out. */
  ghost predicate Consistent(s: Store) {
    forall k :: k in s.films ==> s.films[k].id == Some(k) && k < s.nextId
  }

  /** Every like names a user the user storage knows. */
  ghost predicate LikesKnown(s: Store) {
    forall k :: k in s.films ==> s.films[k].likes <= s.users
  }

  /** `findFilmById`: the stored film, or not-found for an unknown id. */
  function Find(s: Store, id: int): (r: Result<FilmFields, Error>)
    ensures r.Failure? <==> id !in s.films
    ensures r.Failure? ==> r.error == NotFound(FilmMissing(id))
    ensures r.Success? ==> r.value == s.films[id]
  {
    if id !in s.films then Failure(NotFound(FilmMissing(id))) else Success(s.films[id])
  }

  /** `create`: the rules first; a film that passes is filed under the next
      id, which is then advanced. */
  function Create(s: Store, draft: FilmFields, today: Date): (r: Reply<Result<FilmFields, Error>>)
    ensures r.outcome.Success? <==> Check(draft, today) == Pass
    ensures r.outcome.Failure? ==> r.after == s && r.outcome.error == Check(draft, today).error
    ensures r.outcome.Success? ==>
      && r.outcome.value == draft.(id := Some(s.nextId))
      && r.after.films.Keys == s.films.Keys + {s.nextId}
      && r.after.films[s.nextId] == r.outcome.value
      && (forall k :: k in s.films && k != s.nextId ==> r.after.films[k] == s.films[k])
      && r.after.users == s.users && r.after.nextId > s.nextId
  {
    match Check(draft, today)
    case Fail(e) => Reply(Failure(e), s)
    case Pass =>
      var film := draft.(id := Some(s.nextId));
      Reply(Success(film), s.(films := s.films[s.nextId := film], nextId := s.nextId + 1))
  }

  /** `update`: a missing id, then an unknown id, are errors; otherwise the
      draft is merged into the stored film field by field. */
  function Update(s: Store, draft: FilmFields, today: Date): (r: Reply<Result<FilmFields, Error>>)
    ensures r.outcome.Failure? <==> draft.id == None || draft.id.value !in s.films
    ensures draft.id == None ==> r.outcome == Failure(ConditionsNotMet)
    ensures draft.id.Some? && draft.id.value !in s.films ==> r.outcome == Failure(NotFound(FilmMissing(draft.id.value)))
    ensures r.outcome.Failure? ==> r.after == s
    ensures r.outcome.Success? ==>
      var id := draft.id.value;
      && r.outcome.value == Merge(s.films[id], draft, today)
      && r.after.films.Keys == s.films.Keys
      && r.after.films[id] == r.outcome.value
      && (forall k :: k in s.films && k != id ==> r.after.films[k] == s.films[k])
      && r.after.users == s.users && r.after.nextId == s.nextId
  {
    if draft.id == None then
      Reply(Failure(ConditionsNotMet), s)
    else if draft.id.value !in s.films then
      Reply(Failure(NotFound(FilmMissing(draft.id.value))), s)
    else
      var id := draft.id.value;
      var merged := Merge(s.films[id], draft, today);
      Reply(Success(merged), s.(films := s.films[id := merged]))
  }

  /** The film check and then the user check shared by both like
      operations. */
  function CheckFilmAndUser(s: Store, filmId: int, userId: int): (r: Outcome<Error>)
    ensures r == Pass <==> filmId in s.films && userId in s.users
    ensures filmId !in s.films ==> r == Fail(NotFound(FilmMissing(filmId)))
    ensures filmId in s.films && userId !in s.users ==> r == Fail(NotFound(UserMissing(userId)))
  {
    if filmId !in s.films then Fail(NotFound(FilmMissing(filmId)))
    else if userId !in s.users then Fail(NotFound(UserMissing(userId)))
    else Pass
  }

  /** `putLike`: film, user, then "already liked" are checked in turn;
      success adds the user to that film's likes and changes nothing else. */
  function PutLike(s: Store, filmId: int, userId: int): (r: Reply<Outcome<Error>>)
    ensures r.outcome == Pass <==>
      filmId in s.films && userId in s.users && userId !in s.films[filmId].likes
    ensures r.outcome.Fail? ==> r.after == s && r.outcome.error.NotFound?
    ensures filmId !in s.films ==> r.outcome == Fail(NotFound(FilmMissing(filmId)))
    ensures filmId in s.films && userId !in s.users ==> r.outcome == Fail(NotFound(UserMissing(userId)))
    ensures r.outcome.Fail? && filmId in s.films && userId in s.users ==>
      r.outcome.error == NotFound(LikeAlreadyPut(filmId))
    ensures r.outcome == Pass ==>
      && r.after.films.Keys == s.films.Keys
      && r.after.films[filmId] == s.films[filmId].(likes := s.films[filmId].likes + {userId})
      && (forall k :: k in s.films && k != filmId ==> r.after.films[k] == s.films[k])
      && r.after.users == s.users && r.after.nextId == s.nextId
  {
    match CheckFilmAndUser(s, filmId, userId)
    case Fail(e) => Reply(Fail(e), s)
    case Pass =>
      var film := s.films[filmId];
      if userId in film.likes then
        Reply(Fail(NotFound(LikeAlreadyPut(filmId))), s)
      else
        Reply(Pass, s.(films := s.films[filmId := film.(likes := film.likes + {userId})]))
  }

  /** `deleteLike`: the same film and user checks, then "not liked" is an
      error; success removes the user from that film's likes only. */
  function DeleteLike(s: Store, filmId: int, userId: int): (r: Reply<Outcome<Error>>)
    ensures r.outcome == Pass <==>
      filmId in s.films && userId in s.users && userId in s.films[filmId].likes
    ensures r.outcome.Fail? ==> r.after == s && r.outcome.error.NotFound?
    ensures filmId !in s.films ==> r.outcome == Fail(NotFound(FilmMissing(filmId)))
    ensures filmId in s.films && userId !in s.users ==> r.outcome == Fail(NotFound(UserMissing(userId)))
    ensures r.outcome.Fail? && filmId in s.films && userId in s.users ==>
      r.outcome.error == NotFound(LikeNotPut(filmId))
    ensures r.outcome == Pass ==>
      && r.after.films.Keys == s.films.Keys
      && r.after.films[filmId] == s.films[filmId].(likes := s.films[filmId].likes - {userId})
      && (forall k :: k in s.films && k != filmId ==> r.after.films[k] == s.films[k])
      && r.after.users == s.users && r.after.nextId == s.nextId
  {
    match CheckFilmAndUser(s, filmId, userId)
    case Fail(e) => Reply(Fail(e), s)
    case Pass =>
      var film := s.films[filmId];
      if userId !in film.likes then
        Reply(Fail(NotFound(LikeNotPut(filmId))), s)
      else
        Reply(Pass, s.(films := s.films[filmId := film.(likes := film.likes - {userId})]))
  }

  /** A second identical like fails with the already-liked error and
      leaves the catalogue as the first like left it. */
  lemma PutLikeTwiceFails(s: Store, filmId: int, userId: int)
    requires PutLike(s, filmId, userId).outcome == Pass
    ensures
      var second := PutLike(PutLike(s, filmId, userId).after, filmId, userId);
      second.outcome == Fail(NotFound(LikeAlreadyPut(filmId)))
      && second.after == PutLike(s, filmId, userId).after
  {
  }

  /** Removing a like that was never put fails with the not-liked error. */
  lemma DeleteLikeWithoutLikeFails(s: Store, filmId: int, userId: int)
    requires filmId in s.films && userId in s.users && userId !in s.films[filmId].likes
    ensures DeleteLike(s, filmId, userId) == Reply(Fail(NotFound(LikeNotPut(filmId))), s)
  {
  }

  /** A like that succeeds and is then taken back leaves the catalogue
      exactly as it was. */
  lemma PutThenDeleteRestores(s: Store, filmId: int, userId: int)
    requires PutLike(s, filmId, userId).outcome == Pass
    ensures DeleteLike(PutLike(s, filmId, userId).after, filmId, userId) == Reply(Pass, s)
  {
  }

  /** Taking back a like and putting it again also restores the catalogue. */
  lemma DeleteThenPutRestores(s: Store, filmId: int, userId: int)
    requires DeleteLike(s, filmId, userId).outcome == Pass
    ensures PutLike(DeleteLike(s, filmId, userId).after, filmId, userId) == Reply(Pass, s)
  {
    var film := s.films[filmId];
    var mid := DeleteLike(s, filmId, userId).after;
    assert (film.likes - {userId}) + {userId} == film.likes;
    assert mid.films[filmId].(likes := mid.films[filmId].likes + {userId}) == film;
    assert mid.films[filmId := film] == s.films;
  }

  /** The like count, the popularity measure, moves by exactly one on each
      successful like operation. */
  lemma LikeCountMovesByOne(s: Store, filmId: int, userId: int)
    ensures PutLike(s, filmId, userId).outcome == Pass ==>
      |PutLike(s, filmId, userId).after.films[filmId].likes| == |s.films[filmId].likes| + 1
    ensures DeleteLike(s, filmId, userId).outcome == Pass ==>
      |DeleteLike(s, filmId, userId).after.films[filmId].likes| + 1 == |s.films[filmId].likes|
  {
  }

  /** A created film gets an id no film had before, larger than all of
      them, and can then be found under it with the likes it came with. */
  lemma CreateThenFind(s: Store, draft: FilmFields, today: Date)
    requires Consistent(s)
    requires Create(s, draft, today).outcome.Success?
    ensures
      var r := Create(s, draft, today);
      var id := r.outcome.value.id.value;
      && id !in s.films
      && (forall k :: k in s.films ==> k < id)
      && Find(r.after, id) == Success(r.outcome.value)
      && r.outcome.value.likes == draft.likes
  {
  }

  /** A film that fails a create rule is not stored. */
  lemma CreateRejectsNothingStored(s: Store, draft: FilmFields, today: Date)
    requires Check(draft, today).Fail?
    ensures Create(s, draft, today) == Reply(Failure(Check(draft, today).error), s)
  {
  }

  /** After a successful update the stored film is the merge of the old one
      and the draft, under the same id and with the same likes. */
  lemma UpdateThenFind(s: Store, draft: FilmFields, today: Date)
    requires Update(s, draft, today).outcome.Success?
    ensures
      var id := draft.id.value;
      var found := Find(Update(s, draft, today).after, id);
      && found == Success(Merge(s.films[id], draft, today))
      && found.value.id == s.films[id].id
      && found.value.likes == s.films[id].likes
  {
  }

  /** Every operation keeps the storage invariant. */
  lemma OperationsKeepConsistent(s: Store, draft: FilmFields, today: Date, filmId: int, userId: int)
    requires Consistent(s)
    ensures Consistent(Create(s, draft, today).after)
    ensures Consistent(Update(s, draft, today).after)
    ensures Consistent(PutLike(s, filmId, userId).after)
    ensures Consistent(DeleteLike(s, filmId, userId).after)
  {
  }

  /** Likes only ever name known users: the like operations and update keep
      this, and so does create for a film that arrives without unknown
      likes (a freshly constructed film has none). */
  lemma OperationsKeepLikesKnown(s: Store, draft: FilmFields, today: Date, filmId: int, userId: int)
    requires LikesKnown(s)
    ensures draft.likes <= s.users ==> LikesKnown(Create(s, draft, today).after)
    ensures LikesKnown(Update(s, draft, today).after)
    ensures LikesKnown(PutLike(s, filmId, userId).after)
    ensures LikesKnown(DeleteLike(s, filmId, userId).after)
  {
  }
}
