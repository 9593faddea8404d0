/**
 * `RatingService`: the Rating table and the cached `rating` columns of the Course and
 * ProfessorPage tables as fields, updated step by step as the service's read-modify-write
 * sequences do. Each operation is proved to perform the transition of module RatingStore.
 */
module RatingService {
  import opened Options
  import opened RatingStore
  import opened RatingLaws

  class RatingService {
    var ratings: map<int, Rating>
    var courses: map<int, real>
    var professorPages: map<int, real>
    var nextId: int

    /** The tables as a value. */
    function Snapshot(): Store
      reads this
    {
      Store(ratings, courses, professorPages, nextId)
    }

    ghost predicate Valid()
      reads this
    {
      Inv(Snapshot())
    }

    /** Freshly reset tables: no ratings, the given targets unrated, the id sequence restarted at 1. */
    constructor (courseIds: set<int>, professorPageIds: set<int>)
      ensures Valid()
      ensures Snapshot() == Store(map[], map c | c in courseIds :: 0.0, map p | p in professorPageIds :: 0.0, 1)
    {
      ratings := map[];
      courses := map c | c in courseIds :: 0.0;
      professorPages := map p | p in professorPageIds :: 0.0;
      nextId := 1;
      forall kind: Kind, id: int ensures Mean(map[], Target(kind, id), 1) == 0.0 {
        NoRatingsMeanZero(map[], Target(kind, id), 1);
      }
    }

    /** `getAverageRatingForProfessor`: 0.0 for a page nobody rated; under the invariant, the page's cached rating. */
    function AverageRatingForProfessor(professorPageId: int): (average: real)
      reads this
      ensures (forall k | k in ratings :: ratings[k].professorPageId != Some(professorPageId)) ==> average == 0.0
      ensures Valid() && professorPageId in professorPages ==> average == professorPages[professorPageId]
    {
      NoRatingsMeanZero(ratings, Target(ProfessorPageKind, professorPageId), nextId);
      Mean(ratings, Target(ProfessorPageKind, professorPageId), nextId)
    }

    /** `getAverageRatingForCourse`: 0.0 for a course nobody rated; under the invariant, the course's cached rating. */
    function AverageRatingForCourse(courseId: int): (average: real)
      reads this
      ensures (forall k | k in ratings :: ratings[k].courseId != Some(courseId)) ==> average == 0.0
      ensures Valid() && courseId in courses ==> average == courses[courseId]
    {
      NoRatingsMeanZero(ratings, Target(CourseKind, courseId), nextId);
      Mean(ratings, Target(CourseKind, courseId), nextId)
    }

    method SubmitOrUpdateProfessorRating(userId: int, value: real, professorPageId: Option<int>)
      returns (result: SubmitResult)
      modifies this
      ensures (Snapshot(), result) == Submit(old(Snapshot()), ProfessorPageKind, userId, value, professorPageId)
      ensures old(Valid()) ==> Valid()
    {
      ghost var s := Snapshot();
      if !Truthy(professorPageId) {
        return Err(TargetIdRequired);
      }
      var id := professorPageId.value;
      if id !in professorPages {
        return Err(TargetNotFound);
      }
      var existing := FindRating(ratings, userId, Target(ProfessorPageKind, id), nextId);
      if existing.Some? {
        var k := existing.value;
        ratings := ratings[k := ratings[k].(value := value)];
      } else {
        ratings := ratings[nextId := Rating(userId, value, None, Some(id))];
        nextId := nextId + 1;
      }
      var averageRating := AverageRatingForProfessor(id);
      professorPages := professorPages[id := averageRating];
      result := Ok(averageRating);
      if Inv(s) {
        SubmitPreservesInv(s, ProfessorPageKind, userId, value, professorPageId);
      }
    }

    method SubmitOrUpdateCourseRating(userId: int, value: real, courseId: Option<int>)
      returns (result: SubmitResult)
      modifies this
      ensures (Snapshot(), result) == Submit(old(Snapshot()), CourseKind, userId, value, courseId)
      ensures old(Valid()) ==> Valid()
    {
      ghost var s := Snapshot();
      if !Truthy(courseId) {
        return Err(TargetIdRequired);
      }
      var id := courseId.value;
      if id !in courses {
        return Err(TargetNotFound);
      }
      var existing := FindRating(ratings, userId, Target(CourseKind, id), nextId);
      if existing.Some? {
        var k := existing.value;
        ratings := ratings[k := ratings[k].(value := value)];
      } else {
        ratings := ratings[nextId := Rating(userId, value, Some(id), None)];
        nextId := nextId + 1;
      }
      var averageRating := AverageRatingForCourse(id);
      courses := courses[id := averageRating];
      result := Ok(averageRating);
      if Inv(s) {
        SubmitPreservesInv(s, CourseKind, userId, value, courseId);
      }
    }

    /** `deleteRating`: `None` stands for the source's `null`, `Some(id)` for `{ id }`. */
    method DeleteRating(ratingId: int, userId: int) returns (deleted: Option<int>)
      modifies this
      ensures (Snapshot(), deleted) == Delete(old(Snapshot()), ratingId, userId)
      ensures old(Valid()) ==> Valid()
    {
      ghost var s := Snapshot();
      if ratingId !in ratings || ratings[ratingId].userId != userId {
        return None;
      }
      var rating := ratings[ratingId];
      ratings := ratings - {ratingId};
      if Truthy(rating.professorPageId) {
        var p := rating.professorPageId.value;
        var newAverage := AverageRatingForProfessor(p);
        professorPages := professorPages[p := newAverage];
      } else if Truthy(rating.courseId) {
        var c := rating.courseId.value;
        var newAverage := AverageRatingForCourse(c);
        courses := courses[c := newAverage];
      }
      deleted := Some(ratingId);
      if Inv(s) {
        DeletePreservesInv(s, ratingId, userId);
      }
    }
  }
}
