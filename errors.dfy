/** The three exception kinds the film service throws. Each carries a
    structured reason in place of the free-text message, so that which check
    fired first can be stated and proved. */
module Errors {

  /** The four create rules, in the order `check` applies them. */
  datatype Rule = NameRule | DescriptionRule | ReleaseDateRule | DurationRule

  /** Why a `NotFoundException` was thrown. The like conflicts reuse the
      not-found kind, exactly as the service does. */
  datatype Missing =
    | FilmMissing(filmId: int)
    | UserMissing(userId: int)
    | LikeAlreadyPut(filmId: int)
    | LikeNotPut(filmId: int)

  datatype Error =
    | NotFound(reason: Missing)
    | ConditionsNotMet
    | ValidationFailed(rule: Rule)

  /** The HTTP status the error handler answers with. */
  function Status(e: Error): (code: int)
    ensures code == 404 <==> e.NotFound?
    ensures code == 400 <==> !e.NotFound?
  {
    match e
    case NotFound(_) => 404
    case ConditionsNotMet => 400
    case ValidationFailed(_) => 400
  }
}
