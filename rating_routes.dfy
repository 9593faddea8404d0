/**
 * The handlers of GET and POST `/ratings` and DELETE `/ratings/:id`: value validation, the choice
 * of target (professor page before course) and the mapping of service results to status codes.
 * PostSpec and DeleteSpec give each handler's effect on the tables and its response; the
 * handler methods call the service object and are proved to agree with them.
 */
module RatingRoutes {
  import opened Options
  import opened Http
  import Auth
  import opened RatingStore
  import opened RatingLaws
  import opened RatingService

  const LogInMessage := "Unauthorized. Please log in."
  const BadValueMessage := "Rating value must be a number between 1 and 5."
  const SubmittedMessage := "Rating submitted successfully."
  const DeletedMessage := "Rating deleted successfully."
  const NotFoundMessage := "Rating not found or you do not have permission to delete it."
  const InternalErrorMessage := "Internal server error."

  /** `typeof value === 'number'` and 1 <= value <= 5; `None` stands for a body value that is not a number. */
  predicate ValidValue(value: Option<real>): (ok: bool)
    ensures ok <==> value.Some? && !(value.value < 1.0 || value.value > 5.0)
  {
    value.Some? && 1.0 <= value.value <= 5.0
  }

  // ---------------------------------------------------------------------------------------------
  // GET /ratings

  /**
   * The query parameters are strings: `Some(x)` is a non-empty parameter that reads as the number x,
   * and a non-empty string is truthy whatever number it spells.
   */
  function GetRatings(svc: RatingService, courseId: Option<int>, professorPageId: Option<int>): (resp: Response)
    reads svc
    ensures resp.status == 200 && resp.body.AverageBody?
    ensures professorPageId.None? && courseId.None? ==> resp.body.averageRating == 0.0
    ensures svc.Valid() && professorPageId.Some? && professorPageId.value in svc.professorPages ==>
      resp.body.averageRating == svc.professorPages[professorPageId.value]
    ensures svc.Valid() && professorPageId.None? && courseId.Some? && courseId.value in svc.courses ==>
      resp.body.averageRating == svc.courses[courseId.value]
    ensures svc.Valid() && professorPageId.Some? && professorPageId.value !in svc.professorPages ==>
      resp.body.averageRating == 0.0
    ensures svc.Valid() && professorPageId.None? && courseId.Some? && courseId.value !in svc.courses ==>
      resp.body.averageRating == 0.0
  {
    var averageRating :=
      if professorPageId.Some? then svc.AverageRatingForProfessor(professorPageId.value)
      else if courseId.Some? then svc.AverageRatingForCourse(courseId.value)
      else 0.0;
    Response(200, AverageBody(averageRating))
  }

  /** A professor page id, when given, decides the answer; the course id is then ignored. */
  lemma GetPrefersProfessorPage(svc: RatingService, courseId: Option<int>, professorPageId: Option<int>)
    requires professorPageId.Some?
    ensures GetRatings(svc, courseId, professorPageId) == GetRatings(svc, None, professorPageId)
  {
  }

  // ---------------------------------------------------------------------------------------------
  // POST /ratings

  /** The service's result as the handler reports it: its average with 200, or 500 for a thrown error. */
  function Reported(outcome: (Store, SubmitResult)): (r: (Store, Response))
    ensures r.0 == outcome.0
    ensures r.1.status == 200 <==> outcome.1.Ok?
    ensures r.1.status == 500 <==> outcome.1.Err?
    ensures outcome.1.Ok? ==> r.1.body == SubmittedBody(SubmittedMessage, outcome.1.average)
  {
    match outcome.1
    case Ok(average) => (outcome.0, Response(200, SubmittedBody(SubmittedMessage, average)))
    case Err(_) => (outcome.0, Response(500, ErrorBody(InternalErrorMessage)))
  }

  /** The POST handler's effect on the tables and its response; `userId` is `req.session?.userId`. */
  function PostSpec(s: Store, userId: Option<int>, value: Option<real>, courseId: Option<int>, professorPageId: Option<int>)
    : (r: (Store, Response))
    ensures r.1.status in {200, 400, 401, 500}
    ensures r.1.status != 200 ==> r.0 == s
    ensures r.1.status == 200 ==> r.1.body.SubmittedBody?
  {
    if !Truthy(userId) then (s, Response(401, ErrorBody(LogInMessage)))
    else if !ValidValue(value) then (s, Response(400, ErrorBody(BadValueMessage)))
    else if Truthy(professorPageId) then
      Reported(Submit(s, ProfessorPageKind, userId.value, value.value, professorPageId))
    else if Truthy(courseId) then
      Reported(Submit(s, CourseKind, userId.value, value.value, courseId))
    else (s, Response(200, SubmittedBody(SubmittedMessage, 0.0)))
  }

  /** Without a truthy user id the answer is 401 and nothing changes. */
  lemma PostRequiresUser(s: Store, userId: Option<int>, value: Option<real>, courseId: Option<int>, professorPageId: Option<int>)
    requires !Truthy(userId)
    ensures PostSpec(s, userId, value, courseId, professorPageId) == (s, Response(401, ErrorBody(LogInMessage)))
  {
  }

  /** For a signed-in user the answer is 400 exactly when the value is not a number in [1, 5], and then nothing changes. */
  lemma PostValidatesValue(s: Store, userId: Option<int>, value: Option<real>, courseId: Option<int>, professorPageId: Option<int>)
    requires Truthy(userId)
    ensures var (s', resp) := PostSpec(s, userId, value, courseId, professorPageId);
      && (resp.status == 400 <==> value.None? || value.value < 1.0 || value.value > 5.0)
      && (resp.status == 400 ==> s' == s)
  {
  }

  /** With both ids given, the professor page is rated and the course id is ignored. */
  lemma PostPrefersProfessorPage(s: Store, userId: Option<int>, value: Option<real>, courseId: Option<int>, professorPageId: Option<int>)
    requires Truthy(userId) && ValidValue(value) && Truthy(professorPageId)
    ensures PostSpec(s, userId, value, courseId, professorPageId) == PostSpec(s, userId, value, None, professorPageId)
    ensures PostSpec(s, userId, value, courseId, professorPageId).0
         == Submit(s, ProfessorPageKind, userId.value, value.value, professorPageId).0
  {
  }

  /** With neither id given, the answer is 200 with average 0 and nothing changes. */
  lemma PostWithoutTarget(s: Store, userId: Option<int>, value: Option<real>, courseId: Option<int>, professorPageId: Option<int>)
    requires Truthy(userId) && ValidValue(value) && !Truthy(courseId) && !Truthy(professorPageId)
    ensures PostSpec(s, userId, value, courseId, professorPageId) == (s, Response(200, SubmittedBody(SubmittedMessage, 0.0)))
  {
  }

  /**
   * With a target chosen, the answer is 200 carrying exactly the average the service returned, which is the
   * target's new cached rating, or 500 with nothing changed when the service throws (the target does not exist).
   */
  lemma PostReportsService(s: Store, userId: Option<int>, value: Option<real>, courseId: Option<int>, professorPageId: Option<int>)
    requires Truthy(userId) && ValidValue(value) && (Truthy(professorPageId) || Truthy(courseId))
    ensures var kind := if Truthy(professorPageId) then ProfessorPageKind else CourseKind;
      var id := if Truthy(professorPageId) then professorPageId.value else courseId.value;
      var (s', resp) := PostSpec(s, userId, value, courseId, professorPageId);
      var (s'', result) := Submit(s, kind, userId.value, value.value, Some(id));
      && s' == s''
      && (resp.status == 200 <==> result.Ok?)
      && (result.Ok? ==> resp.body == SubmittedBody(SubmittedMessage, result.average)
                         && result.average == Cache(s', kind)[id])
      && (result.Err? <==> resp.status == 500)
      && (result.Err? <==> id !in Cache(s, kind))
      && (result.Err? ==> s' == s)
  {
  }

  /** The POST handler keeps the aggregator's invariant and keeps every stored value in [1, 5]. */
  lemma PostKeepsTablesSound(s: Store, userId: Option<int>, value: Option<real>, courseId: Option<int>, professorPageId: Option<int>)
    requires Inv(s) && ValuesWithin(s, 1.0, 5.0)
    ensures var s' := PostSpec(s, userId, value, courseId, professorPageId).0;
      Inv(s') && ValuesWithin(s', 1.0, 5.0)
  {
    if Truthy(userId) && ValidValue(value) {
      if Truthy(professorPageId) {
        SubmitPreservesInv(s, ProfessorPageKind, userId.value, value.value, professorPageId);
        SubmitKeepsValuesWithin(s, ProfessorPageKind, userId.value, value.value, professorPageId, 1.0, 5.0);
      } else if Truthy(courseId) {
        SubmitPreservesInv(s, CourseKind, userId.value, value.value, courseId);
        SubmitKeepsValuesWithin(s, CourseKind, userId.value, value.value, courseId, 1.0, 5.0);
      }
    }
  }

  /** The POST handler (`createRating`), after the middleware. */
  method CreateRating(svc: RatingService, userId: Option<int>, value: Option<real>, courseId: Option<int>, professorPageId: Option<int>)
    returns (resp: Response)
    modifies svc
    ensures (svc.Snapshot(), resp) == PostSpec(old(svc.Snapshot()), userId, value, courseId, professorPageId)
    ensures old(svc.Valid()) ==> svc.Valid()
  {
    if !Truthy(userId) {
      return Response(401, ErrorBody(LogInMessage));
    }
    if !ValidValue(value) {
      return Response(400, ErrorBody(BadValueMessage));
    }
    var averageRating: real := 0.0;
    if Truthy(professorPageId) {
      var result := svc.SubmitOrUpdateProfessorRating(userId.value, value.value, professorPageId);
      if result.Err? {
        return Response(500, ErrorBody(InternalErrorMessage));
      }
      averageRating := result.average;
    } else if Truthy(courseId) {
      var result := svc.SubmitOrUpdateCourseRating(userId.value, value.value, courseId);
      if result.Err? {
        return Response(500, ErrorBody(InternalErrorMessage));
      }
      averageRating := result.average;
    }
    resp := Response(200, SubmittedBody(SubmittedMessage, averageRating));
  }

  /** `router.post('/ratings', requireAuth, ...)`: the middleware, then the handler. */
  method PostRatings(svc: RatingService, session: Option<Session>, value: Option<real>, courseId: Option<int>, professorPageId: Option<int>)
    returns (resp: Response)
    modifies svc
    ensures !Truthy(SessionUserId(session)) ==>
      resp == Response(401, ErrorBody(Auth.UnauthorizedMessage)) && svc.Snapshot() == old(svc.Snapshot())
    ensures Truthy(SessionUserId(session)) ==>
      (svc.Snapshot(), resp) == PostSpec(old(svc.Snapshot()), SessionUserId(session), value, courseId, professorPageId)
    ensures old(svc.Valid()) ==> svc.Valid()
  {
    var gate := Auth.RequireAuth(session);
    if !gate.nextCalled {
      return gate.response.value;
    }
    resp := CreateRating(svc, SessionUserId(session), value, courseId, professorPageId);
  }

  // ---------------------------------------------------------------------------------------------
  // DELETE /ratings/:id

  /** The DELETE handler's effect on the tables and its response. */
  function DeleteSpec(s: Store, userId: Option<int>, ratingId: int): (r: (Store, Response))
    ensures r.1.status in {200, 401, 404}
    ensures r.1.status != 200 ==> r.0 == s
    ensures r.1.status == 200 ==> r.1.body == DeletedBody(DeletedMessage, ratingId)
  {
    if !Truthy(userId) then (s, Response(401, ErrorBody(LogInMessage)))
    else
      var (s', deleted) := Delete(s, ratingId, userId.value);
      match deleted
      case None => (s', Response(404, ErrorBody(NotFoundMessage)))
      case Some(id) => (s', Response(200, DeletedBody(DeletedMessage, id)))
  }

  /**
   * For a signed-in user: 404 with nothing changed exactly when the rating is absent or not theirs;
   * otherwise 200 with the deleted rating's id, that rating gone, and the invariant kept.
   */
  lemma DeleteResponses(s: Store, userId: Option<int>, ratingId: int)
    requires Truthy(userId)
    ensures var (s', resp) := DeleteSpec(s, userId, ratingId);
      var mine := ratingId in s.ratings && s.ratings[ratingId].userId == userId.value;
      && (resp.status == 404 <==> !mine)
      && (!mine ==> s' == s && resp.body == ErrorBody(NotFoundMessage))
      && (mine ==> resp == Response(200, DeletedBody(DeletedMessage, ratingId)) && s'.ratings == s.ratings - {ratingId})
      && (Inv(s) ==> Inv(s'))
  {
    if Inv(s) {
      DeletePreservesInv(s, ratingId, userId.value);
    }
  }

  /** The DELETE handler (`deleteRating`), after the middleware. */
  method RemoveRating(svc: RatingService, userId: Option<int>, ratingId: int) returns (resp: Response)
    modifies svc
    ensures (svc.Snapshot(), resp) == DeleteSpec(old(svc.Snapshot()), userId, ratingId)
    ensures old(svc.Valid()) ==> svc.Valid()
  {
    if !Truthy(userId) {
      return Response(401, ErrorBody(LogInMessage));
    }
    var deletedRating := svc.DeleteRating(ratingId, userId.value);
    if deletedRating.None? {
      return Response(404, ErrorBody(NotFoundMessage));
    }
    resp := Response(200, DeletedBody(DeletedMessage, deletedRating.value));
  }

  /** `router.delete('/ratings/:id', requireAuth, ...)`: the middleware, then the handler. */
  method DeleteRatingById(svc: RatingService, session: Option<Session>, ratingId: int) returns (resp: Response)
    modifies svc
    ensures !Truthy(SessionUserId(session)) ==>
      resp == Response(401, ErrorBody(Auth.UnauthorizedMessage)) && svc.Snapshot() == old(svc.Snapshot())
    ensures Truthy(SessionUserId(session)) ==>
      (svc.Snapshot(), resp) == DeleteSpec(old(svc.Snapshot()), SessionUserId(session), ratingId)
    ensures old(svc.Valid()) ==> svc.Valid()
  {
    var gate := Auth.RequireAuth(session);
    if !gate.nextCalled {
      return gate.response.value;
    }
    resp := RemoveRating(svc, SessionUserId(session), ratingId);
  }
}
