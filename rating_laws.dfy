/** What the rating aggregator's state transitions guarantee. */
module RatingLaws {
  import opened Options
  import opened RatingStore

  // ---------------------------------------------------------------------------------------------
  // Sum and count

  /** Two tables that agree on the ratings of `t` with ids in [0, n). */
  ghost predicate AgreeBelow(m1: map<int, Rating>, m2: map<int, Rating>, t: Target, n: int)
  {
    forall k | 0 <= k < n :: Counted(m1, t, k) == Counted(m2, t, k) && Contribution(m1, t, k) == Contribution(m2, t, k)
  }

  /** Sum and count depend only on the ratings of `t` below the bound. */
  lemma {:induction false} SumCountFrame(m1: map<int, Rating>, m2: map<int, Rating>, t: Target, n: int)
    requires AgreeBelow(m1, m2, t, n)
    ensures Sum(m1, t, n) == Sum(m2, t, n) && Count(m1, t, n) == Count(m2, t, n)
    decreases n
  {
    if n > 0 {
      SumCountFrame(m1, m2, t, n - 1);
    }
  }

  /** Overwriting the value of one rating changes the sum by the difference and keeps the count. */
  lemma {:induction false} SumCountOverwrite(m: map<int, Rating>, t: Target, n: int, k: int, v: real)
    requires 0 <= k < n && k in m
    ensures var m' := m[k := m[k].(value := v)];
      && Count(m', t, n) == Count(m, t, n)
      && Sum(m', t, n) == Sum(m, t, n) - Contribution(m, t, k) + Contribution(m', t, k)
    decreases n
  {
    var m' := m[k := m[k].(value := v)];
    if n - 1 == k {
      SumCountFrame(m, m', t, k);
    } else {
      SumCountOverwrite(m, t, n - 1, k, v);
    }
  }

  /** Removing one rating takes its value out of the sum and, if it rates `t`, one out of the count. */
  lemma {:induction false} SumCountRemove(m: map<int, Rating>, t: Target, n: int, k: int)
    requires 0 <= k < n && k in m
    ensures Count(m - {k}, t, n) == Count(m, t, n) - (if Rates(m[k], t) then 1 else 0)
    ensures Sum(m - {k}, t, n) == Sum(m, t, n) - Contribution(m, t, k)
    decreases n
  {
    if n - 1 == k {
      SumCountFrame(m, m - {k}, t, k);
    } else {
      SumCountRemove(m, t, n - 1, k);
    }
  }

  /** Inserting a rating at the bound adds its value to the sum and, if it rates `t`, one to the count. */
  lemma SumCountExtend(m: map<int, Rating>, t: Target, n: int, r: Rating)
    requires n >= 0 && n !in m
    ensures Count(m[n := r], t, n + 1) == Count(m, t, n) + (if Rates(r, t) then 1 else 0)
    ensures Sum(m[n := r], t, n + 1) == Sum(m, t, n) + (if Rates(r, t) then r.value else 0.0)
  {
    SumCountFrame(m[n := r], m, t, n);
  }

  /** The ids of the ratings of `t` below the bound. */
  ghost function RatingsOf(m: map<int, Rating>, t: Target, n: int): set<int>
  {
    set k | k in m && 0 <= k < n && Rates(m[k], t)
  }

  /** Count is the number of ratings of `t`: every rating counts once, with no weighting. */
  lemma {:induction false} CountIsNumberOfRatings(m: map<int, Rating>, t: Target, n: int)
    ensures Count(m, t, n) == |RatingsOf(m, t, n)|
    decreases n
  {
    if n <= 0 {
      assert RatingsOf(m, t, n) == {};
    } else {
      CountIsNumberOfRatings(m, t, n - 1);
      if Counted(m, t, n - 1) {
        assert RatingsOf(m, t, n) == RatingsOf(m, t, n - 1) + {n - 1};
      } else {
        assert RatingsOf(m, t, n) == RatingsOf(m, t, n - 1);
      }
    }
  }

  /** The count is zero exactly when no rating below the bound rates `t`, and then the mean is 0.0. */
  lemma {:induction false} NoRatingsMeanZero(m: map<int, Rating>, t: Target, n: int)
    ensures Count(m, t, n) == 0 <==> forall k | 0 <= k < n && k in m :: !Rates(m[k], t)
    ensures Count(m, t, n) == 0 ==> Mean(m, t, n) == 0.0
    decreases n
  {
    if n > 0 {
      NoRatingsMeanZero(m, t, n - 1);
    }
  }

  lemma {:induction false} SumWithin(m: map<int, Rating>, t: Target, n: int, lo: real, hi: real)
    requires forall k | k in m && Rates(m[k], t) :: lo <= m[k].value <= hi
    ensures Count(m, t, n) as real * lo <= Sum(m, t, n) <= Count(m, t, n) as real * hi
    decreases n
  {
    if n > 0 {
      SumWithin(m, t, n - 1, lo, hi);
      var c := Count(m, t, n - 1) as real;
      if Counted(m, t, n - 1) {
        assert (c + 1.0) * lo == c * lo + lo;
        assert (c + 1.0) * hi == c * hi + hi;
      }
    }
  }

  lemma QuotientWithin(total: real, c: real, lo: real, hi: real)
    requires c > 0.0 && c * lo <= total <= c * hi
    ensures lo <= total / c <= hi
  {
    assert (total / c) * c == total;
  }

  /** With at least one rating, the mean times the number of ratings is their sum. */
  lemma MeanTimesCount(m: map<int, Rating>, t: Target, n: int)
    requires Count(m, t, n) > 0
    ensures Mean(m, t, n) * Count(m, t, n) as real == Sum(m, t, n)
  {
    var c := Count(m, t, n) as real;
    assert (Sum(m, t, n) / c) * c == Sum(m, t, n);
  }

  /** A mean of values in [lo, hi] lies in [lo, hi]. */
  lemma MeanWithin(m: map<int, Rating>, t: Target, n: int, lo: real, hi: real)
    requires forall k | k in m && Rates(m[k], t) :: lo <= m[k].value <= hi
    requires Count(m, t, n) > 0
    ensures lo <= Mean(m, t, n) <= hi
  {
    SumWithin(m, t, n, lo, hi);
    QuotientWithin(Sum(m, t, n), Count(m, t, n) as real, lo, hi);
  }

  // ---------------------------------------------------------------------------------------------
  // Submit

  /** Submit throws, and changes nothing, exactly when the id is missing or falsy or the target row is absent. */
  lemma SubmitRejects(s: Store, kind: Kind, userId: int, value: real, targetId: Option<int>)
    ensures var (s', result) := Submit(s, kind, userId, value, targetId);
      && (result.Err? <==> !Truthy(targetId) || targetId.value !in Cache(s, kind))
      && (result.Err? ==> s' == s)
      && (!Truthy(targetId) ==> result == Err(TargetIdRequired))
      && (Truthy(targetId) && targetId.value !in Cache(s, kind) ==> result == Err(TargetNotFound))
  {
  }

  /** Under the invariant the compound-unique lookup finds the user's one rating of the target. */
  lemma FindRatingFindsOwn(s: Store, userId: int, t: Target, k: int)
    requires Inv(s)
    requires k in s.ratings && Owns(s.ratings[k], userId, t)
    ensures FindRating(s.ratings, userId, t, s.nextId) == Some(k)
  {
    var found := FindRating(s.ratings, userId, t, s.nextId);
    if found.Some? && found.value != k {
      assert Clash(s.ratings[k], s.ratings[found.value]);
      assert false;
    }
  }

  /** A repeat submission overwrites only the value of the existing rating: same id, no new row. */
  lemma SubmitOverwritesExisting(s: Store, kind: Kind, userId: int, value: real, targetId: Option<int>, k: int)
    requires Inv(s)
    requires Truthy(targetId) && targetId.value in Cache(s, kind)
    requires k in s.ratings && Owns(s.ratings[k], userId, Target(kind, targetId.value))
    ensures var s' := Submit(s, kind, userId, value, targetId).0;
      && s'.ratings == s.ratings[k := s.ratings[k].(value := value)]
      && s'.ratings.Keys == s.ratings.Keys
      && s'.nextId == s.nextId
  {
    FindRatingFindsOwn(s, userId, Target(kind, targetId.value), k);
  }

  /** A first submission creates exactly one rating, with the next id, the target's key set and the other key null. */
  lemma SubmitCreatesNew(s: Store, kind: Kind, userId: int, value: real, targetId: Option<int>)
    requires Inv(s)
    requires Truthy(targetId) && targetId.value in Cache(s, kind)
    requires forall k | k in s.ratings :: !Owns(s.ratings[k], userId, Target(kind, targetId.value))
    ensures var s' := Submit(s, kind, userId, value, targetId).0;
      var r := Rating(userId, value,
                      if kind == CourseKind then targetId else None,
                      if kind == ProfessorPageKind then targetId else None);
      && s.nextId !in s.ratings
      && s'.ratings == s.ratings[s.nextId := r]
      && s'.nextId == s.nextId + 1
      && OneTarget(r) && Rates(r, Target(kind, targetId.value))
  {
  }

  /** After a submit the target's cache is the recomputed mean and is what is returned; no other cache changes. */
  lemma SubmitRecomputesOnlyTarget(s: Store, kind: Kind, userId: int, value: real, targetId: Option<int>)
    requires Truthy(targetId) && targetId.value in Cache(s, kind)
    ensures var (s', result) := Submit(s, kind, userId, value, targetId);
      var other := if kind == CourseKind then ProfessorPageKind else CourseKind;
      && result.Ok?
      && result.average == Mean(s'.ratings, Target(kind, targetId.value), s'.nextId)
      && Cache(s', kind) == Cache(s, kind)[targetId.value := result.average]
      && Cache(s', other) == Cache(s, other)
  {
  }

  /** A rating of one target does not rate any other target. */
  lemma OnlyItsTarget(r: Rating, t: Target, t': Target)
    requires OneTarget(r) && Rates(r, t) && t' != t
    ensures !Rates(r, t')
  {
  }

  /** The rating write of a submit for `t` leaves the mean of every other target as it was. */
  lemma UpsertKeepsOtherMeans(s: Store, userId: int, value: real, t: Target, t': Target)
    requires Inv(s) && t' != t
    ensures var s1 := Upsert(s, userId, value, t);
      Mean(s1.ratings, t', s1.nextId) == Mean(s.ratings, t', s.nextId)
  {
    var m, n := s.ratings, s.nextId;
    match FindRating(m, userId, t, n)
    case Some(k) =>
      var m' := m[k := m[k].(value := value)];
      OnlyItsTarget(m[k], t, t');
      assert AgreeBelow(m, m', t', n);
      SumCountFrame(m, m', t', n);
    case None =>
      var r := NewRating(userId, value, t);
      SumCountExtend(m, t', n, r);
  }

  lemma SubmitKeepsCacheConsistent(s: Store, userId: int, value: real, t: Target, kind: Kind)
    requires Inv(s) && t.id in Cache(s, t.kind)
    ensures CacheConsistent(Recompute(Upsert(s, userId, value, t), t), kind)
  {
    var s2 := Recompute(Upsert(s, userId, value, t), t);
    forall id | id in Cache(s2, kind)
      ensures Cache(s2, kind)[id] == Mean(s2.ratings, Target(kind, id), s2.nextId)
    {
      if Target(kind, id) != t {
        UpsertKeepsOtherMeans(s, userId, value, t, Target(kind, id));
      }
    }
  }

  /** Submit keeps ids allocated, one target per rating, one rating per user and target, and every cache equal to its mean. */
  lemma SubmitPreservesInv(s: Store, kind: Kind, userId: int, value: real, targetId: Option<int>)
    requires Inv(s)
    ensures Inv(Submit(s, kind, userId, value, targetId).0)
  {
    if Truthy(targetId) && targetId.value in Cache(s, kind) {
      var t := Target(kind, targetId.value);
      var s1 := Upsert(s, userId, value, t);
      var s2 := Recompute(s1, t);
      assert s2.courses.Keys == s.courses.Keys && s2.professorPages.Keys == s.professorPages.Keys;
      match FindRating(s.ratings, userId, t, s.nextId) {
      case Some(k) =>
        assert OnePerUserAndTarget(s2.ratings) by {
          forall k1, k2 | k1 in s2.ratings && k2 in s2.ratings && k1 != k2
            ensures !Clash(s2.ratings[k1], s2.ratings[k2])
          {
            assert Clash(s2.ratings[k1], s2.ratings[k2]) == Clash(s.ratings[k1], s.ratings[k2]);
          }
        }
      case None =>
        assert OnePerUserAndTarget(s2.ratings) by {
          forall k1, k2 | k1 in s2.ratings && k2 in s2.ratings && k1 != k2
            ensures !Clash(s2.ratings[k1], s2.ratings[k2])
          {
            if k1 == s.nextId {
              assert !Owns(s.ratings[k2], userId, t);
            } else if k2 == s.nextId {
              assert !Owns(s.ratings[k1], userId, t);
            }
          }
        }
      }
      SubmitKeepsCacheConsistent(s, userId, value, t, CourseKind);
      SubmitKeepsCacheConsistent(s, userId, value, t, ProfessorPageKind);
    }
  }

  /** Submitting the same rating twice leaves the tables as one submission does, with the same result. */
  lemma SubmitIdempotent(s: Store, kind: Kind, userId: int, value: real, targetId: Option<int>)
    requires Inv(s)
    ensures var once := Submit(s, kind, userId, value, targetId);
      Submit(once.0, kind, userId, value, targetId) == once
  {
    var (s1, r1) := Submit(s, kind, userId, value, targetId);
    if r1.Ok? {
      var t := Target(kind, targetId.value);
      SubmitPreservesInv(s, kind, userId, value, targetId);
      var k := FindRating(s1.ratings, userId, t, s1.nextId);
      assert k.Some? by {
        var k0 :| k0 in s1.ratings && Owns(s1.ratings[k0], userId, t) by {
          match FindRating(s.ratings, userId, t, s.nextId)
          case Some(j) => assert Owns(s1.ratings[j], userId, t);
          case None => assert Owns(s1.ratings[s.nextId], userId, t);
        }
        FindRatingFindsOwn(s1, userId, t, k0);
      }
      assert s1.ratings[k.value].value == value;
      assert s1.ratings[k.value := s1.ratings[k.value].(value := value)] == s1.ratings;
      assert Upsert(s1, userId, value, t) == s1;
      assert Cache(s1, kind)[t.id := Cache(s1, kind)[t.id]] == Cache(s1, kind);
    }
  }

  /** The last of two submissions by one user for one target wins, as if the first had not happened. */
  lemma SubmitLastWriteWins(s: Store, kind: Kind, userId: int, first: real, second: real, targetId: Option<int>)
    requires Inv(s)
    ensures var s1 := Submit(s, kind, userId, first, targetId).0;
      Submit(s1, kind, userId, second, targetId) == Submit(s, kind, userId, second, targetId)
  {
    var (s1, r1) := Submit(s, kind, userId, first, targetId);
    if r1.Ok? {
      var t := Target(kind, targetId.value);
      SubmitPreservesInv(s, kind, userId, first, targetId);
      match FindRating(s.ratings, userId, t, s.nextId) {
      case Some(j) =>
        assert Owns(s1.ratings[j], userId, t);
        FindRatingFindsOwn(s1, userId, t, j);
        assert Upsert(s1, userId, second, t).ratings == Upsert(s, userId, second, t).ratings;
      case None =>
        assert Owns(s1.ratings[s.nextId], userId, t);
        FindRatingFindsOwn(s1, userId, t, s.nextId);
        assert Upsert(s1, userId, second, t).ratings == Upsert(s, userId, second, t).ratings;
      }
      var a := Mean(Upsert(s, userId, second, t).ratings, t, Upsert(s, userId, second, t).nextId);
      assert Cache(s1, kind)[t.id := a] == Cache(s, kind)[t.id := a];
    }
  }

  /** A submission of a value in [lo, hi] keeps every stored value in [lo, hi]. */
  lemma SubmitKeepsValuesWithin(s: Store, kind: Kind, userId: int, value: real, targetId: Option<int>, lo: real, hi: real)
    requires ValuesWithin(s, lo, hi) && lo <= value <= hi
    ensures ValuesWithin(Submit(s, kind, userId, value, targetId).0, lo, hi)
  {
  }

  // ---------------------------------------------------------------------------------------------
  // Delete

  /** Delete answers `null` and changes nothing exactly when the rating is absent or belongs to someone else. */
  lemma DeleteRejects(s: Store, ratingId: int, userId: int)
    ensures var (s', result) := Delete(s, ratingId, userId);
      && (result.None? <==> ratingId !in s.ratings || s.ratings[ratingId].userId != userId)
      && (result.None? ==> s' == s)
  {
  }

  /** Under the invariant a rating's recomputed target is the one it rates, and that target exists. */
  lemma TargetOfRated(s: Store, k: int)
    requires Inv(s) && k in s.ratings
    ensures var r := s.ratings[k];
      && TargetOf(r).Some?
      && Rates(r, TargetOf(r).value)
      && TargetOf(r).value.id in Cache(s, TargetOf(r).value.kind)
  {
  }

  /** A successful delete removes exactly that rating, recomputes its target's cache and returns its id. */
  lemma DeleteRemovesOwn(s: Store, ratingId: int, userId: int)
    requires Inv(s)
    requires ratingId in s.ratings && s.ratings[ratingId].userId == userId
    ensures var (s', result) := Delete(s, ratingId, userId);
      var t := TargetOf(s.ratings[ratingId]).value;
      var other := if t.kind == CourseKind then ProfessorPageKind else CourseKind;
      && result == Some(ratingId)
      && s'.ratings == s.ratings - {ratingId}
      && s'.nextId == s.nextId
      && Cache(s', t.kind) == Cache(s, t.kind)[t.id := Mean(s'.ratings, t, s'.nextId)]
      && Cache(s', other) == Cache(s, other)
  {
    TargetOfRated(s, ratingId);
  }

  /** Removing a rating of `t` leaves the mean of every other target as it was. */
  lemma RemoveKeepsOtherMeans(s: Store, k: int, t: Target, t': Target)
    requires Inv(s) && k in s.ratings && Rates(s.ratings[k], t) && t' != t
    ensures Mean(s.ratings - {k}, t', s.nextId) == Mean(s.ratings, t', s.nextId)
  {
    OnlyItsTarget(s.ratings[k], t, t');
    assert AgreeBelow(s.ratings, s.ratings - {k}, t', s.nextId);
    SumCountFrame(s.ratings, s.ratings - {k}, t', s.nextId);
  }

  lemma DeleteKeepsCacheConsistent(s: Store, k: int, kind: Kind)
    requires Inv(s) && k in s.ratings
    ensures TargetOf(s.ratings[k]).Some?
    ensures CacheConsistent(Recompute(s.(ratings := s.ratings - {k}), TargetOf(s.ratings[k]).value), kind)
  {
    TargetOfRated(s, k);
    var t := TargetOf(s.ratings[k]).value;
    var s2 := Recompute(s.(ratings := s.ratings - {k}), t);
    forall id | id in Cache(s2, kind)
      ensures Cache(s2, kind)[id] == Mean(s2.ratings, Target(kind, id), s2.nextId)
    {
      if Target(kind, id) != t {
        RemoveKeepsOtherMeans(s, k, t, Target(kind, id));
      }
    }
  }

  /** Delete keeps the invariant. */
  lemma DeletePreservesInv(s: Store, ratingId: int, userId: int)
    requires Inv(s)
    ensures Inv(Delete(s, ratingId, userId).0)
  {
    if ratingId in s.ratings && s.ratings[ratingId].userId == userId {
      TargetOfRated(s, ratingId);
      var t := TargetOf(s.ratings[ratingId]).value;
      var s2 := Delete(s, ratingId, userId).0;
      assert s2.courses.Keys == s.courses.Keys && s2.professorPages.Keys == s.professorPages.Keys;
      DeleteKeepsCacheConsistent(s, ratingId, CourseKind);
      DeleteKeepsCacheConsistent(s, ratingId, ProfessorPageKind);
    }
  }

  /** Deleting the rating a first submission created restores every table; only the id counter has moved on. */
  lemma DeleteUndoesCreate(s: Store, kind: Kind, userId: int, value: real, targetId: Option<int>)
    requires Inv(s)
    requires Truthy(targetId) && targetId.value in Cache(s, kind)
    requires forall k | k in s.ratings :: !Owns(s.ratings[k], userId, Target(kind, targetId.value))
    ensures var s1 := Submit(s, kind, userId, value, targetId).0;
      Delete(s1, s.nextId, userId) == (s.(nextId := s.nextId + 1), Some(s.nextId))
  {
    var t := Target(kind, targetId.value);
    var m, n := s.ratings, s.nextId;
    var s1 := Submit(s, kind, userId, value, targetId).0;
    SubmitCreatesNew(s, kind, userId, value, targetId);
    assert s1.ratings - {n} == m;
    assert TargetOf(s1.ratings[n]) == Some(t);
    assert Mean(m, t, n + 1) == Mean(m, t, n);
    assert Cache(s1, kind)[t.id := Cache(s, kind)[t.id]] == Cache(s, kind);
  }

  /** Delete never introduces a value. */
  lemma DeleteKeepsValuesWithin(s: Store, ratingId: int, userId: int, lo: real, hi: real)
    requires ValuesWithin(s, lo, hi)
    ensures ValuesWithin(Delete(s, ratingId, userId).0, lo, hi)
  {
  }

  /** With every value in [lo, hi], every cached average is 0.0 (unrated) or lies in [lo, hi]. */
  lemma CachedAveragesWithin(s: Store, kind: Kind, id: int, lo: real, hi: real)
    requires Inv(s) && ValuesWithin(s, lo, hi)
    requires id in Cache(s, kind)
    ensures Cache(s, kind)[id] == 0.0 || lo <= Cache(s, kind)[id] <= hi
  {
    var t := Target(kind, id);
    if Count(s.ratings, t, s.nextId) > 0 {
      MeanWithin(s.ratings, t, s.nextId, lo, hi);
    }
  }

  // ---------------------------------------------------------------------------------------------
  // A worked example

  // Users 1, 2 and 3 rate course 10 with 5, 3 and 4, in that order; ScenarioStore(k) is the
  // store after the first k of them.

  function ScenarioRow(user: int): Rating
  {
    Rating(user, if user == 1 then 5.0 else if user == 2 then 3.0 else 4.0, Some(10), None)
  }

  function ScenarioStore(k: nat): Store
  {
    if k == 0 then Store(map[], map[10 := 0.0], map[], 1)
    else if k == 1 then Store(map[1 := ScenarioRow(1)], map[10 := 5.0], map[], 2)
    else if k == 2 then Store(map[1 := ScenarioRow(1), 2 := ScenarioRow(2)], map[10 := 4.0], map[], 3)
    else Store(map[1 := ScenarioRow(1), 2 := ScenarioRow(2), 3 := ScenarioRow(3)], map[10 := 4.0], map[], 4)
  }

  /** A first-time course rating, stated as the whole next store and the returned average. */
  lemma FirstCourseRating(s: Store, userId: int, value: real, id: int, s': Store, average: real)
    requires Inv(s) && id != 0 && id in s.courses
    requires forall k | k in s.ratings :: !Owns(s.ratings[k], userId, Target(CourseKind, id))
    requires s'.ratings == s.ratings[s.nextId := Rating(userId, value, Some(id), None)]
    requires s' == Store(s'.ratings, s.courses[id := average], s.professorPages, s.nextId + 1)
    requires Mean(s'.ratings, Target(CourseKind, id), s'.nextId) == average
    ensures Submit(s, CourseKind, userId, value, Some(id)) == (s', Ok(average))
    ensures Inv(s')
  {
    SubmitCreatesNew(s, CourseKind, userId, value, Some(id));
    SubmitPreservesInv(s, CourseKind, userId, value, Some(id));
  }

  /** Three users rate course 10 with 5, 3 and 4: the average is 4.0. */
  lemma CourseScenarioSubmits()
    ensures var s0 := Store(map[], map[10 := 0.0], map[], 1);
      var (s1, _) := Submit(s0, CourseKind, 1, 5.0, Some(10));
      var (s2, _) := Submit(s1, CourseKind, 2, 3.0, Some(10));
      var (s3, r3) := Submit(s2, CourseKind, 3, 4.0, Some(10));
      r3 == Ok(4.0) && s3 == ScenarioStore(3)
  {
    var t := Target(CourseKind, 10);
    var s0, s1, s2, s3 := ScenarioStore(0), ScenarioStore(1), ScenarioStore(2), ScenarioStore(3);
    NoRatingsMeanZero(s0.ratings, t, 1);
    assert Inv(s0);
    SumCountExtend(s0.ratings, t, 1, ScenarioRow(1));
    assert s0.ratings[1 := ScenarioRow(1)] == s1.ratings;
    FirstCourseRating(s0, 1, 5.0, 10, s1, 5.0);
    SumCountExtend(s1.ratings, t, 2, ScenarioRow(2));
    assert s1.ratings[2 := ScenarioRow(2)] == s2.ratings;
    assert Mean(s2.ratings, t, 3) == 8.0 / 2.0;
    FirstCourseRating(s1, 2, 3.0, 10, s2, 4.0);
    SumCountExtend(s2.ratings, t, 3, ScenarioRow(3));
    assert s2.ratings[3 := ScenarioRow(3)] == s3.ratings;
    assert Mean(s3.ratings, t, 4) == 12.0 / 3.0;
    FirstCourseRating(s2, 3, 4.0, 10, s3, 4.0);
  }

  /** Deleting the 3 from that store leaves the 5 and the 4: the cached average becomes 4.5. */
  lemma CourseScenarioDelete()
    ensures var (s4, d) := Delete(ScenarioStore(3), 2, 2);
      d == Some(2) && s4.courses[10] == 4.5
  {
    var t := Target(CourseKind, 10);
    var m0: map<int, Rating> := map[];
    var m1 := m0[1 := ScenarioRow(1)];
    var m2 := m1[2 := ScenarioRow(2)];
    var m3 := m2[3 := ScenarioRow(3)];
    SumCountExtend(m0, t, 1, ScenarioRow(1));
    SumCountExtend(m1, t, 2, ScenarioRow(2));
    SumCountExtend(m2, t, 3, ScenarioRow(3));
    assert m3 == ScenarioStore(3).ratings;
    SumCountRemove(m3, t, 4, 2);
    assert Delete(ScenarioStore(3), 2, 2).0.courses[10] == 9.0 / 2.0;
  }
}
