/** The film service over the objects it manages: the film storage is a map
    from id to the stored `Film` object, the user storage is the set of known
    user ids. Update and the like operations change the stored object in
    place, as the service does; each method is proved to follow the
    catalogue definition of its operation. */
module Service {
  import opened Wrappers
  import opened Dates
  import opened Text
  import opened Errors
  import opened FilmModel
  import opened FilmRules
  import Catalogue

  class FilmService {
    /** The film storage: `checkId(id)` holds exactly for the keys. */
    var films: map<int, Film>
    /** The user storage, as far as this service asks it: `checkId`. */
    var users: set<int>
    /** The id the film storage hands to the next created film. */
    var nextId: int

    ghost predicate Valid()
      reads this, films.Values
    {
      forall k :: k in films ==> films[k].id == Some(k) && k < nextId
    }

    /** The catalogue the stored objects currently describe. */
    ghost function Abstract(): Catalogue.Store
      reads this, films.Values
    {
      Catalogue.Store(map k | k in films :: films[k].Fields(), users, nextId)
    }

    /** Distinct ids hold distinct objects, so changing one stored film
        never changes another. */
    lemma StoredFilmsDistinct(j: int, k: int)
      requires Valid() && j in films && k in films && j != k
      ensures films[j] != films[k]
    {
    }

    constructor (knownUsers: set<int>)
      ensures Valid()
      ensures Abstract() == Catalogue.Store(map[], knownUsers, 1)
    {
      films := map[];
      users := knownUsers;
      nextId := 1;
    }

    /** `findFilmById`: not-found exactly when the storage has no such id;
        otherwise the stored object itself. Nothing changes. */
    method FindFilmById(id: int) returns (r: Result<Film, Error>)
      requires Valid()
      ensures r.Success? <==> id in films
      ensures r.Success? ==> r.value == films[id] && Catalogue.Find(Abstract(), id) == Success(r.value.Fields())
      ensures r.Failure? ==> Catalogue.Find(Abstract(), id) == Failure(r.error)
    {
      if id !in films {
        return Failure(NotFound(FilmMissing(id)));
      }
      r := Success(films[id]);
    }

    /** `create`: the film is checked, then handed to the storage, which
        gives it the next id and files the same object under it. */
    method Create(film: Film, today: Date) returns (r: Result<Film, Error>)
      requires Valid()
      requires film !in films.Values
      modifies this, film
      ensures Valid()
      ensures
        var spec := Catalogue.Create(old(Abstract()), old(film.Fields()), today);
        && Abstract() == spec.after
        && r.Success? == spec.outcome.Success?
        && (r.Success? ==> r.value == film && film.Fields() == spec.outcome.value)
        && (r.Failure? ==> r.error == spec.outcome.error && film.Fields() == old(film.Fields()))
    {
      var checked := Check(film.Fields(), today);
      if checked.Fail? {
        return Failure(checked.error);
      }
      ghost var before := Abstract();
      film.SetId(Some(nextId));
      films := films[nextId := film];
      nextId := nextId + 1;
      forall k | k in films && k != nextId - 1
        ensures films[k].Fields() == before.films[k]
      {
      }
      r := Success(film);
    }

    /** `update`: a missing id, then an unknown id, are errors; otherwise
        each usable field of the draft is set on the stored object, one
        setter at a time. */
    method Update(newFilm: Film, today: Date) returns (r: Result<Film, Error>)
      requires Valid()
      modifies films.Values
      ensures Valid()
      ensures
        var spec := Catalogue.Update(old(Abstract()), old(newFilm.Fields()), today);
        && Abstract() == spec.after
        && r.Success? == spec.outcome.Success?
        && (r.Success? ==> old(newFilm.id).Some? && r.value == films[old(newFilm.id).value] && r.value.Fields() == spec.outcome.value)
        && (r.Failure? ==> r.error == spec.outcome.error)
    {
      if newFilm.id == None {
        return Failure(ConditionsNotMet);
      }
      var id := newFilm.id.value;
      if id !in films {
        return Failure(NotFound(FilmMissing(id)));
      }
      ghost var before := Abstract();
      var film := films[id];
      CopyUsableFields(newFilm, film, today);
      forall k | k in films && k != id
        ensures films[k].Fields() == before.films[k]
      {
        StoredFilmsDistinct(k, id);
      }
      assert Abstract().films == before.films[id := film.Fields()];
      // The storage's update files the same object under the same id again.
      r := Success(film);
    }

    /** The body of `update` once the target is found: each field of the
        draft that passes its own test is set on the stored film, one setter
        at a time. The draft may be the stored object itself. */
    static method CopyUsableFields(newFilm: Film, film: Film, today: Date)
      modifies film
      ensures film.Fields() == Merge(old(film.Fields()), old(newFilm.Fields()), today)
    {
      ghost var draft := newFilm.Fields();
      if newFilm.name != None && !IsBlank(newFilm.name.value) {
        film.SetName(newFilm.name);
      }
      assert newFilm.Fields() == draft.(name := newFilm.name);
      if newFilm.description != None && !IsBlank(newFilm.description.value) {
        film.SetDescription(newFilm.description);
      }
      assert newFilm.releaseDate == draft.releaseDate && newFilm.duration == draft.duration;
      if newFilm.releaseDate != None
        && !IsBefore(newFilm.releaseDate.value, CinemaBirthday)
        && !IsAfter(newFilm.releaseDate.value, today)
      {
        film.SetReleaseDate(newFilm.releaseDate);
      }
      assert newFilm.duration == draft.duration;
      if newFilm.duration != None && newFilm.duration.value > 0 {
        film.SetDuration(newFilm.duration);
      }
    }

    /** `putLike`: film, user, then "already liked"; on success the user
        is added to the stored film's own like set. */
    method PutLike(filmId: int, userId: int) returns (r: Outcome<Error>)
      requires Valid()
      modifies films.Values
      ensures Valid()
      ensures
        var spec := Catalogue.PutLike(old(Abstract()), filmId, userId);
        Abstract() == spec.after && r == spec.outcome
    {
      if filmId !in films {
        return Fail(NotFound(FilmMissing(filmId)));
      }
      if userId !in users {
        return Fail(NotFound(UserMissing(userId)));
      }
      ghost var before := Abstract();
      var film := films[filmId];
      if userId in film.likes {
        return Fail(NotFound(LikeAlreadyPut(filmId)));
      }
      var _ := film.AddLike(userId);
      forall k | k in films && k != filmId
        ensures films[k].Fields() == before.films[k]
      {
        StoredFilmsDistinct(k, filmId);
      }
      r := Pass;
    }

    /** `deleteLike`: film, user, then "not liked"; on success the user is
        removed from the stored film's own like set. */
    method DeleteLike(filmId: int, userId: int) returns (r: Outcome<Error>)
      requires Valid()
      modifies films.Values
      ensures Valid()
      ensures
        var spec := Catalogue.DeleteLike(old(Abstract()), filmId, userId);
        Abstract() == spec.after && r == spec.outcome
    {
      if filmId !in films {
        return Fail(NotFound(FilmMissing(filmId)));
      }
      if userId !in users {
        return Fail(NotFound(UserMissing(userId)));
      }
      ghost var before := Abstract();
      var film := films[filmId];
      if userId !in film.likes {
        return Fail(NotFound(LikeNotPut(filmId)));
      }
      var _ := film.RemoveLike(userId);
      forall k | k in films && k != filmId
        ensures films[k].Fields() == before.films[k]
      {
        StoredFilmsDistinct(k, filmId);
      }
      r := Pass;
    }
  }
}
