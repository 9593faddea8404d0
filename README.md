# ClassPeek rating aggregator, modelled in Dafny

ClassPeek is a course-review web application. Users rate two kinds of target: courses and
professor pages. Each target keeps a denormalised `rating` column, which is the mean of its
ratings. This project models three pieces:

- the `RatingService`, which keeps one rating per user and target and recomputes the target's
  cached mean after every create, update and delete;
- the route handlers of `/ratings`, which validate values, choose the target and map results to
  status codes;
- the `requireAuth` and `restrictTo` middleware.

Modules:

- `Options`: `Option`, and `Truthy`, JavaScript truthiness of an optional numeric id. A missing
  id and the id 0 are both falsy.
- `Http`: the session fields, the JSON bodies, responses, and a middleware `Effect`. An `Effect`
  records the response sent, if any, and whether `next` was called.
- `Auth`: `RequireAuth`, `RestrictTo` and `Includes`, which is `Array.prototype.includes`.
- `RatingStore`: the tables as one `Store` value. It holds:
  - the Rating rows, keyed by id; each row has two nullable foreign keys;
  - the cached `rating` column of the Course and ProfessorPage tables, keyed by target id;
  - the id the next created rating gets.

  The module also gives the aggregate query (`Sum`, `Count`, `Mean`), the compound-unique lookup
  (`FindRating`), the service operations as state transitions (`Submit`, `Delete`), and the
  invariant `Inv`. `Inv` says:
  - every rating id lies in [1, the id counter);
  - every rating points at exactly one target, by a truthy id of an existing row;
  - no user has two ratings of the same target;
  - every cached `rating` equals the mean of its target's ratings.
- `RatingLaws`: the lemmas about those transitions.
- `RatingService`: the class `RatingService`. Its fields are the three tables and the id counter.
  Its methods do the source's read-modify-write steps one after another. Each method is proved
  to perform the `RatingStore` transition and to keep `Inv`.
- `RatingRoutes`: `PostSpec` and `DeleteSpec` give each handler's effect and response. The
  handler methods call the service object and are proved to agree with them. The lemmas state
  what each route guarantees.

Modelling choices:

- Ids are `int`. A JSON body id or session `userId` counts as absent when it is missing or 0.
  A GET query parameter is a string, so any non-empty one is present, including `"0"`. A present
  query parameter is modelled as the number it spells.
- Rating values and averages are `real`, with no rounding.
- A body `value` that is not a number is `None`.
- The aggregate mean is taken over the rating ids below the id counter. The invariant keeps
  every rating id below it, so the mean covers the whole table.
- The service writes the rating and then the target's cache in two separate awaits, with no
  transaction around them. The model performs the two writes in sequence, so an interleaving
  between them cannot be expressed, and the model does not claim the pair is atomic.
- The service itself accepts any value; the range [1, 5] is checked only by the POST route, and
  the model places the check there too.
- The service throws plain `Error`s, and the POST route answers each of them with 500. The model
  records which error was thrown (`TargetIdRequired`, `TargetNotFound`) and maps both to 500.

## Model

| member | source | states |
|---|---|---|
| `Auth.RequireAuth` | backend/src/middleware/auth.middleware.ts:6-13 | exactly one of "respond" and "call next"; `next` is called iff a session exists and its `userId` is truthy; otherwise the response is 401 with the log-in error |
| `Auth.Includes` | backend/src/middleware/auth.middleware.ts:20 | the front-to-back scan finds a role iff the role is in the list |
| `Auth.RestrictTo` | backend/src/middleware/auth.middleware.ts:16-27 | exactly one of "respond" and "call next"; `next` is called iff `userType` is present, non-empty and in `allowedRoles`; otherwise the response is 403 "Access denied" |
| `RatingStore.Mean` | backend/src/services/ratingService.ts:14-18 | the `_avg` of the aggregate, also at lines 22-26, defined as sum over count of the target's ratings; with no ratings it is 0.0 (the fallback when `_avg.value` is null); `MeanTimesCount` and `MeanWithin` are proved about it |
| `RatingLaws.MeanTimesCount` | backend/src/services/ratingService.ts:14-18 | with at least one rating, the mean times the number of ratings is their sum |
| `RatingStore.Upsert` | backend/src/services/ratingService.ts:46-71 | the rating write of submit: the caches are untouched, and either the keys and counter stay (update) or exactly the next id is added and the counter moves by one (create); `SubmitOverwritesExisting` and `SubmitCreatesNew` state the rows it writes |
| `RatingStore.Submit` | backend/src/services/ratingService.ts:29-83 | the definition both submit methods are proved equal to (the course variant is lines 85-139): an error leaves the tables unchanged; success means a truthy existing target whose new cache equals the returned average, which is the target's new mean |
| `RatingStore.TargetOf` | backend/src/services/ratingService.ts:158-164 | the target whose cache delete recomputes: one the rating rates, with a non-zero id; none iff neither foreign key is truthy; the professor page whenever its key is truthy |
| `RatingStore.Delete` | backend/src/services/ratingService.ts:141-173 | the definition `DeleteRating` is proved equal to: null leaves the tables unchanged; otherwise the result is the given id, exactly that rating is removed, and the counter is kept |
| `RatingStore.FindRating` | backend/src/services/ratingService.ts:45-53 | a found id is a rating below the counter owned by the user for the target; not found means no rating below the counter is owned by the user for the target |
| `RatingLaws.CountIsNumberOfRatings` | backend/src/services/ratingService.ts:13-27 | the count in the mean is the number of ratings whose foreign key equals the target id, so every rating counts once, with no weighting |
| `RatingLaws.NoRatingsMeanZero` | backend/src/services/ratingService.ts:14-18 | the count is zero iff no rating matches the target, and then the mean is exactly 0.0 |
| `RatingLaws.SumCountOverwrite` | backend/src/services/ratingService.ts:55-60 | overwriting one rating's value keeps the count and changes the sum by the difference |
| `RatingLaws.SumCountExtend` | backend/src/services/ratingService.ts:61-71 | inserting a rating with a fresh id adds its value to the sum and one to the count of the target it rates, and nothing to other targets |
| `RatingLaws.SumCountRemove` | backend/src/services/ratingService.ts:152-155 | removing a rating takes its value out of the sum and one out of the count of the target it rates |
| `RatingLaws.MeanWithin` | backend/src/services/ratingService.ts:13-27 | the mean of a non-empty set of ratings whose values lie in [lo, hi] lies in [lo, hi] |
| `RatingLaws.SubmitRejects` | backend/src/services/ratingService.ts:32-43 | submit throws iff the target id is missing or falsy, or the target row is absent; it then names which, and changes nothing |
| `RatingLaws.FindRatingFindsOwn` | backend/src/services/ratingService.ts:46-53 | under the invariant, the lookup by (user, target) returns that user's one rating of the target |
| `RatingLaws.SubmitOverwritesExisting` | backend/src/services/ratingService.ts:55-60 | a repeat submission overwrites only the value of the existing rating; its id is kept; no row is added; the id counter does not move |
| `RatingLaws.SubmitCreatesNew` | backend/src/services/ratingService.ts:61-71 | a first submission adds exactly one rating under the next id, with the target's foreign key set and the other one null |
| `RatingLaws.SubmitRecomputesOnlyTarget` | backend/src/services/ratingService.ts:73-82 | the returned average is the new mean of the target and is written to the target's cache; no other cache changes |
| `RatingLaws.UpsertKeepsOtherMeans` | backend/src/services/ratingService.ts:55-71 | the rating write for one target does not change the mean of any other target |
| `RatingLaws.SubmitPreservesInv` | backend/src/services/ratingService.ts:29-83 | submit keeps one target per rating, one rating per (user, target), allocated ids, and every cache equal to its mean |
| `RatingLaws.SubmitIdempotent` | backend/src/services/ratingService.ts:29-83 | submitting the same rating twice gives the same tables and result as submitting it once |
| `RatingLaws.SubmitLastWriteWins` | backend/src/services/ratingService.ts:46-71 | two submissions by one user for one target leave the tables as the second alone would |
| `RatingLaws.SubmitKeepsValuesWithin` | backend/src/services/ratingService.ts:57-70 | a submission of a value in [lo, hi] keeps every stored value in [lo, hi] |
| `RatingLaws.DeleteRejects` | backend/src/services/ratingService.ts:143-150 | delete returns null iff the rating is absent or owned by another user, and then changes nothing |
| `RatingLaws.TargetOfRated` | backend/src/services/ratingService.ts:158-170 | under the invariant, the professor-page-then-course test picks the existing target the rating rates |
| `RatingLaws.DeleteRemovesOwn` | backend/src/services/ratingService.ts:152-172 | the owner's delete removes exactly that rating, recomputes the cache of its target only, and returns its id |
| `RatingLaws.RemoveKeepsOtherMeans` | backend/src/services/ratingService.ts:153-155 | removing a rating of one target does not change the mean of any other target |
| `RatingLaws.DeletePreservesInv` | backend/src/services/ratingService.ts:141-173 | delete keeps the invariant |
| `RatingLaws.DeleteUndoesCreate` | backend/src/services/ratingService.ts:141-173 | deleting the rating a first submission created restores every table; only the id counter has advanced |
| `RatingLaws.DeleteKeepsValuesWithin` | backend/src/services/ratingService.ts:152-155 | delete introduces no value |
| `RatingLaws.CachedAveragesWithin` | backend/src/services/ratingService.ts:73-80 | when every value lies in [lo, hi], each cached rating is 0.0 (unrated) or lies in [lo, hi] |
| `RatingLaws.FirstCourseRating` | backend/src/services/ratingService.ts:85-139 | a user's first rating of an existing course yields exactly the store with the new row under the next id, the course's cache set to the new mean, and the counter advanced; the invariant is kept |
| `RatingLaws.CourseScenarioSubmits` | backend/src/services/ratingService.ts:85-139 | ratings 5, 3 and 4 from three users for course 10, one after the other, average 4.0 |
| `RatingLaws.CourseScenarioDelete` | backend/src/services/ratingService.ts:141-172 | deleting the 3 from those ratings returns its id and makes the course's cache 4.5 |
| `RatingService.RatingService.constructor` | backend/prisma/reset_db.ts:23 | the state after a reset: the Rating table empty (line 10), the `Rating_id_seq` sequence restarted at 1, every given target unrated at 0.0; the invariant holds |
| `RatingService.RatingService.AverageRatingForProfessor` | backend/src/services/ratingService.ts:13-19 | 0.0 for a professor page no rating points at; under the invariant, equal to the page's cached rating |
| `RatingService.RatingService.AverageRatingForCourse` | backend/src/services/ratingService.ts:21-27 | 0.0 for a course no rating points at; under the invariant, equal to the course's cached rating |
| `RatingService.RatingService.SubmitOrUpdateProfessorRating` | backend/src/services/ratingService.ts:29-83 | the new tables and the result are `Submit` for professor pages applied to the old tables; the invariant is kept |
| `RatingService.RatingService.SubmitOrUpdateCourseRating` | backend/src/services/ratingService.ts:85-139 | the new tables and the result are `Submit` for courses applied to the old tables; the invariant is kept |
| `RatingService.RatingService.DeleteRating` | backend/src/services/ratingService.ts:141-173 | the new tables and the result are `Delete` applied to the old tables; the invariant is kept |
| `RatingRoutes.GetRatings` | backend/src/routes/ratings.ts:47-68 | always 200 with an average; 0 when neither id is given; under the invariant, the cached rating of the professor page, else of the course, and 0 for a page id, or (with no page id) a course id, that names no row |
| `RatingRoutes.GetPrefersProfessorPage` | backend/src/routes/ratings.ts:54-60 | when a professor page id is given, the course id does not affect the answer |
| `RatingRoutes.ValidValue` | backend/src/routes/ratings.ts:133 | a value passes iff it is a number and neither below 1 nor above 5 |
| `RatingRoutes.Reported` | backend/src/routes/ratings.ts:157-164 | the tables are the service's; 200 iff the service returned an average, carried in the body with the success message; 500 iff it threw |
| `RatingRoutes.PostSpec` | backend/src/routes/ratings.ts:122-165 | the definition `CreateRating` is proved equal to: the status is one of 200, 400, 401 and 500; every status but 200 leaves the tables unchanged; 200 carries a submitted body |
| `RatingRoutes.PostRequiresUser` | backend/src/routes/ratings.ts:125-130 | without a truthy session user id: 401, and the tables are unchanged |
| `RatingRoutes.PostValidatesValue` | backend/src/routes/ratings.ts:133-135 | for a signed-in user, 400 iff the value is not a number or lies outside [1, 5] (both bounds allowed); 400 changes nothing |
| `RatingRoutes.PostPrefersProfessorPage` | backend/src/routes/ratings.ts:139-155 | with both ids truthy, the professor page is rated and the course id is ignored |
| `RatingRoutes.PostWithoutTarget` | backend/src/routes/ratings.ts:137-160 | with neither id truthy: 200 with average 0, and the tables are unchanged |
| `RatingRoutes.PostReportsService` | backend/src/routes/ratings.ts:142-164 | the tables are the service's; 200 carries exactly the service's average, which is the target's new cache; the service's exception becomes 500, happens iff the target row is absent, and changes nothing |
| `RatingRoutes.PostKeepsTablesSound` | backend/src/routes/ratings.ts:121-167 | POST keeps the invariant and keeps every stored rating value in [1, 5] |
| `RatingRoutes.CreateRating` | backend/src/routes/ratings.ts:122-165 | the handler's new tables and response are `PostSpec` of the old tables; the invariant is kept |
| `RatingRoutes.PostRatings` | backend/src/routes/ratings.ts:121-167 | `requireAuth`'s 401 with no change when the session has no truthy user id; otherwise the handler's `PostSpec` |
| `RatingRoutes.DeleteSpec` | backend/src/routes/ratings.ts:209-235 | the definition `RemoveRating` is proved equal to: the status is one of 200, 401 and 404; every status but 200 leaves the tables unchanged; 200 carries the deleted message and the requested id |
| `RatingRoutes.DeleteResponses` | backend/src/routes/ratings.ts:220-230 | for a signed-in user, 404 iff the rating is absent or not theirs, and then nothing changes; otherwise 200 with the rating's id, that rating removed, and the invariant kept |
| `RatingRoutes.RemoveRating` | backend/src/routes/ratings.ts:209-235 | the handler's new tables and response are `DeleteSpec` of the old tables; the invariant is kept |
| `RatingRoutes.DeleteRatingById` | backend/src/routes/ratings.ts:208-237 | `requireAuth`'s 401 with no change when the session has no truthy user id; otherwise the handler's `DeleteSpec` |

## Left out

- Prisma calls (`aggregate`, `findUnique`, `create`, `update`, `delete`) are operations on in-memory maps, not database queries.
- Transactions and concurrency are not modelled. The rating write and the cache write run as two awaits with no transaction, and the sequential model cannot express an interleaving between them. Racing first-time submissions, which rely on the database's unique constraint, are out of scope.
- Floating point is not modelled. Values and averages are exact reals: no rounding, no NaN. A NaN `value` passes the route's range check in the source; the model has no NaN.
- `Number(...)` parsing of query, body and path ids is not modelled. Ids are given as integers, so an id that parses to NaN, and a body id sent as a string, are not covered.
- Database failures are not modelled, so the 500 paths of GET and DELETE cannot be reached in the model. In POST the only exception is the service's "not found".
- The error messages the service throws are not modelled; only which error it throws. The route replaces every message with "Internal server error.".
- Other routes that write the target tables are not modelled, for example a course update whose body sets `rating`, or deleting a course. The model assumes the aggregator is the only writer of the cache and that rated targets are never deleted. This is the invariant's referential-integrity part. Because of it, a cache update of a missing target row, which would throw in the source, never occurs.
- RatingService.RatingService.constructor: assumes that every given course and professor page starts with a cached rating of 0.0. That is a schema default, and no file of this model shows it; the reset script empties the Rating table and restarts its id sequence but does not create targets.
- `restrictTo` is modelled on its own. No rating route mounts it.
- The `console.log` and `console.error` calls, the Express `res.status(...).json(...)` plumbing and the session cookies are left out. A handler's reply is modelled as a `Response` value.
