/**
 * The rating tables as a value: the Rating rows keyed by id, the cached `rating` column of the
 * Course and ProfessorPage tables keyed by target id, and the id the next created Rating gets.
 * The operations of the rating aggregator are state transitions on this value; the class in
 * module RatingService performs them step by step and is proved to agree with them.
 */
module RatingStore {
  import opened Options

  datatype Kind = CourseKind | ProfessorPageKind

  /** A rateable target: a course or a professor page, and its id. */
  datatype Target = Target(kind: Kind, id: int)

  /** A Rating row; the polymorphic association is two nullable foreign keys. */
  datatype Rating = Rating(userId: int, value: real, courseId: Option<int>, professorPageId: Option<int>)

  datatype Store = Store(
    ratings: map<int, Rating>,
    courses: map<int, real>,
    professorPages: map<int, real>,
    nextId: int)

  /** The two errors the submit operations throw. */
  datatype ServiceError = TargetIdRequired | TargetNotFound

  datatype SubmitResult = Ok(average: real) | Err(error: ServiceError)

  /** The filter of the aggregate query: `where: { courseId }` or `where: { professorPageId }`. */
  predicate Rates(r: Rating, t: Target)
  {
    match t.kind
    case CourseKind => r.courseId == Some(t.id)
    case ProfessorPageKind => r.professorPageId == Some(t.id)
  }

  predicate Owns(r: Rating, userId: int, t: Target)
  {
    r.userId == userId && Rates(r, t)
  }

  predicate Counted(m: map<int, Rating>, t: Target, k: int)
  {
    k in m && Rates(m[k], t)
  }

  function Contribution(m: map<int, Rating>, t: Target, k: int): real
  {
    if Counted(m, t, k) then m[k].value else 0.0
  }

  /** The sum of the values of the ratings of `t` whose ids lie in [0, n). */
  function Sum(m: map<int, Rating>, t: Target, n: int): real
    decreases n
  {
    if n <= 0 then 0.0 else Sum(m, t, n - 1) + Contribution(m, t, n - 1)
  }

  /** The number of ratings of `t` whose ids lie in [0, n). */
  function Count(m: map<int, Rating>, t: Target, n: int): nat
    decreases n
  {
    if n <= 0 then 0 else Count(m, t, n - 1) + (if Counted(m, t, n - 1) then 1 else 0)
  }

  /** `_avg.value || 0.0`: the arithmetic mean of the values of the ratings of `t`, or 0.0 when there are none. */
  function Mean(m: map<int, Rating>, t: Target, n: int): (average: real)
    ensures Count(m, t, n) == 0 ==> average == 0.0
  {
    if Count(m, t, n) == 0 then 0.0 else Sum(m, t, n) / Count(m, t, n) as real
  }

  /**
   * The compound-unique lookup `user_course_unique` / `user_professor_unique`, over ids in [0, n).
   * It scans from the highest id down; the order does not matter, because under OnePerUserAndTarget
   * at most one rating matches (RatingLaws.FindRatingFindsOwn).
   */
  function FindRating(m: map<int, Rating>, userId: int, t: Target, n: int): (found: Option<int>)
    ensures found.Some? ==> 0 <= found.value < n && found.value in m && Owns(m[found.value], userId, t)
    ensures found.None? ==> forall k | 0 <= k < n && k in m :: !Owns(m[k], userId, t)
    decreases n
  {
    if n <= 0 then None
    else if n - 1 in m && Owns(m[n - 1], userId, t) then Some(n - 1)
    else FindRating(m, userId, t, n - 1)
  }

  /** The cached `rating` column of the table of one kind. */
  function Cache(s: Store, kind: Kind): map<int, real>
  {
    match kind
    case CourseKind => s.courses
    case ProfessorPageKind => s.professorPages
  }

  /** `course.update` / `professorPage.update` with `data: { rating: average }`. */
  function WithCache(s: Store, t: Target, average: real): Store
  {
    match t.kind
    case CourseKind => s.(courses := s.courses[t.id := average])
    case ProfessorPageKind => s.(professorPages := s.professorPages[t.id := average])
  }

  /** Recompute the mean of `t` and store it in `t`'s cached column. */
  function Recompute(s: Store, t: Target): Store
  {
    WithCache(s, t, Mean(s.ratings, t, s.nextId))
  }

  /** The row `rating.create` inserts: the foreign key of `t` set, the other one null. */
  function NewRating(userId: int, value: real, t: Target): Rating
  {
    match t.kind
    case CourseKind => Rating(userId, value, Some(t.id), None)
    case ProfessorPageKind => Rating(userId, value, None, Some(t.id))
  }

  /** Overwrite the value of the user's rating of `t`, or insert a new rating with the next id. */
  function Upsert(s: Store, userId: int, value: real, t: Target): (s': Store)
    ensures s'.courses == s.courses && s'.professorPages == s.professorPages
    ensures || (s'.nextId == s.nextId && s'.ratings.Keys == s.ratings.Keys)
            || (s'.nextId == s.nextId + 1 && s'.ratings.Keys == s.ratings.Keys + {s.nextId})
  {
    match FindRating(s.ratings, userId, t, s.nextId)
    case Some(k) => s.(ratings := s.ratings[k := s.ratings[k].(value := value)])
    case None => s.(ratings := s.ratings[s.nextId := NewRating(userId, value, t)], nextId := s.nextId + 1)
  }

  /** `submitOrUpdateCourseRating` (kind CourseKind) and `submitOrUpdateProfessorRating` (kind ProfessorPageKind). */
  function Submit(s: Store, kind: Kind, userId: int, value: real, targetId: Option<int>): (r: (Store, SubmitResult))
    ensures r.1.Err? ==> r.0 == s
    ensures r.1.Ok? ==> Truthy(targetId) && targetId.value in Cache(r.0, kind)
                        && r.1.average == Cache(r.0, kind)[targetId.value]
                        && r.1.average == Mean(r.0.ratings, Target(kind, targetId.value), r.0.nextId)
  {
    if !Truthy(targetId) then (s, Err(TargetIdRequired))
    else if targetId.value !in Cache(s, kind) then (s, Err(TargetNotFound))
    else
      var t := Target(kind, targetId.value);
      var s' := Recompute(Upsert(s, userId, value, t), t);
      (s', Ok(Cache(s', kind)[t.id]))
  }

  /** The target whose cache `deleteRating` recomputes: the professor page first, else the course. */
  function TargetOf(r: Rating): (t: Option<Target>)
    ensures t.Some? ==> Rates(r, t.value) && t.value.id != 0
    ensures t.None? <==> !Truthy(r.courseId) && !Truthy(r.professorPageId)
    ensures Truthy(r.professorPageId) ==> t == Some(Target(ProfessorPageKind, r.professorPageId.value))
  {
    if Truthy(r.professorPageId) then Some(Target(ProfessorPageKind, r.professorPageId.value))
    else if Truthy(r.courseId) then Some(Target(CourseKind, r.courseId.value))
    else None
  }

  /** `deleteRating(ratingId, userId)`: `None` is the source's `null`, `Some(id)` its `{ id }`. */
  function Delete(s: Store, ratingId: int, userId: int): (r: (Store, Option<int>))
    ensures r.1.None? ==> r.0 == s
    ensures r.1.Some? ==> r.1.value == ratingId && r.0.ratings == s.ratings - {ratingId} && r.0.nextId == s.nextId
  {
    if ratingId !in s.ratings || s.ratings[ratingId].userId != userId then (s, None)
    else
      var r := s.ratings[ratingId];
      var s1 := s.(ratings := s.ratings - {ratingId});
      var s2 := match TargetOf(r) case Some(t) => Recompute(s1, t) case None => s1;
      (s2, Some(ratingId))
  }

  // ---------------------------------------------------------------------------------------------
  // The invariant the aggregator keeps

  /** A rating points at exactly one target. */
  predicate OneTarget(r: Rating)
  {
    r.courseId.Some? != r.professorPageId.Some?
  }

  /** The foreign keys of a rating are truthy ids of existing rows. */
  predicate Linked(s: Store, r: Rating)
  {
    && (r.courseId.Some? ==> r.courseId.value != 0 && r.courseId.value in s.courses)
    && (r.professorPageId.Some? ==> r.professorPageId.value != 0 && r.professorPageId.value in s.professorPages)
  }

  /** Two ratings by the same user of the same target. */
  predicate Clash(r1: Rating, r2: Rating)
  {
    && r1.userId == r2.userId
    && ((r1.courseId.Some? && r1.courseId == r2.courseId)
        || (r1.professorPageId.Some? && r1.professorPageId == r2.professorPageId))
  }

  ghost predicate IdsAllocated(s: Store)
  {
    && s.nextId >= 1
    && forall k | k in s.ratings :: 1 <= k < s.nextId
  }

  ghost predicate RowsWellFormed(s: Store)
  {
    forall k | k in s.ratings :: OneTarget(s.ratings[k]) && Linked(s, s.ratings[k])
  }

  ghost predicate OnePerUserAndTarget(m: map<int, Rating>)
  {
    forall k1, k2 | k1 in m && k2 in m && k1 != k2 :: !Clash(m[k1], m[k2])
  }

  /** Every cached `rating` of the kind equals the mean of that target's ratings. */
  ghost predicate CacheConsistent(s: Store, kind: Kind)
  {
    forall id | id in Cache(s, kind) :: Cache(s, kind)[id] == Mean(s.ratings, Target(kind, id), s.nextId)
  }

  ghost predicate Inv(s: Store)
  {
    && IdsAllocated(s)
    && RowsWellFormed(s)
    && OnePerUserAndTarget(s.ratings)
    && CacheConsistent(s, CourseKind)
    && CacheConsistent(s, ProfessorPageKind)
  }

  /** Every stored rating value lies in [lo, hi]. */
  ghost predicate ValuesWithin(s: Store, lo: real, hi: real)
  {
    forall k | k in s.ratings :: lo <= s.ratings[k].value <= hi
  }
}
