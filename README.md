# Course-tracker progress model

A Dafny model of the logic of a small course-tracking web application: the lesson-progress
store and what is computed from it, plus the catalog and profile lookups that feed those
computations.

- **Progress store** (`Progress`, `ProgressProperties`): the `progress` collection holds one
  record per watched (user, lesson) at the document id `userId_lessonId`. The `userActivity`
  collection holds the last lesson visited for a (user, course) at `userId_courseId`. The
  class `ProgressStore` keeps both collections as maps. Its writes overwrite a whole record,
  as `setDoc` does. Its two collection reads are loops over the documents, as the `forEach`
  calls are; the pointer read is a single lookup, as `getDoc` is.
  The grouping builds a plain object, so a record whose user id is a name every object
  inherits (`constructor`, `toString`, `__proto__`, ...) makes it throw. The model returns
  `None` exactly then, and the action and the page load fail with it.
- **Document ids** (`DocKeys`): the composite id is the string `first + "_" + second`.
  `SplitKey` reads an id back. Splitting undoes the composition exactly when the first part
  contains no `_` (both directions are proved), so ids are injective on such pairs. A concrete pair of users shows what
  happens otherwise: marking a lesson for user `a` overwrites a record of user `a_b`.
- **Actions** (`ProgressActions`): the write actions turn a completed write into
  `{success: true}` and a thrown value into `{success: false, message}`. The read actions
  return the store's answers unchanged. `getAllProgressAction` turns each set into a
  duplicate-free array.
- **Progress page** (`ProgressPage`): the arrays are rebuilt into sets, and the loaded data
  equals what the store grouped. The page computes the lesson total as a left fold, and for
  each user the completed count, the percentage, the per-course watched lists (an
  order-preserving filter) and the "no progress" message.
- **Summary card** (`ProgressSummary`): the rounded percentage and the remaining count. The
  page uses the same percentage.
- **Catalog** (`Courses`): the five static courses with all their fields, and lookup by
  slug. The catalog's ids, slugs and lesson ids are shown to be distinct, and every lesson
  id is the course id followed by `-n`.
- **Users** (`Users`): the user store (add, get, list by name) and the avatar URL.
- **Current user** (`UserContext`): the provider's state (`users`, `currentUser`,
  `isLoading`) and the stored id. Restoring the selection, selecting a user, and clearing
  the selection are methods.

Two behaviours of the page that the code does not guard against are stated as lemmas.
First, the completed count includes watched ids of lessons that are in no current course,
so the percentage can exceed 100 (`StaleIdsCanPassHundredPercent`). Second, a user whose
watched ids are all such stale ids sees neither a course card nor the "no progress" message
(`StaleProgressShowsNeither`).

Progress records carry no `completed` flag or seek position, and the code has no
watched-today count and no per-user bulk delete. Lesson ids are unique across the whole
catalog, not only within a course (`CatalogLessonIdsUnique`).

Inputs the code gets from outside become parameters:
- `outcome` is whether a store write completed or threw, and what it threw.
- `newId` is the fresh id that `addDoc` assigns.
- `readFails` and `order` are the result of the `orderBy("name")` query. In `GetUser`,
  `readFails` is whether `getDoc` rejects; in `AddUser`, `writeFails` is whether `addDoc` rejects.
- `storageFails` is whether the browser storage throws.

## Model

| member | source | states |
|---|---|---|
| DocKeys.CompositeKey | src/lib/progress.ts:28 | the id is the first part, one `_`, then the second part, each readable back at its position |
| DocKeys.FirstSeparator | src/lib/progress.ts:28 | the position of the first `_` of an id: no `_` before it, a `_` at it unless it is the length |
| DocKeys.SplitKeyRoundTrip | src/lib/progress.ts:28 | splitting `first_second` at its first `_` gives back the pair when `first` has no `_` |
| DocKeys.SeparatedFirstIsNotRecovered | src/lib/progress.ts:28 | when the first part contains `_`, splitting does not give it back |
| DocKeys.KeyInjective | src/lib/progress.ts:40 | two composite ids are equal iff the pairs are, when the first parts have no `_` |
| DocKeys.KeysCollideWithSeparator | src/lib/progress.ts:50 | with `_` inside a first part, two different pairs build the same id |
| Progress.Watched | src/lib/progress.ts:17-24 | an id is watched iff some record with that `userId` has it as `lessonId`, whatever id the record sits at |
| Progress.Mark | src/lib/progress.ts:28-36 | the record at `userId_lesson.id` becomes this user, lesson, course and video; every other document is unchanged |
| Progress.LastWatched | src/lib/progress.ts:40-46 | null iff no document sits at `userId_courseId`, else its `lastWatchedLessonId` |
| Progress.SetLast | src/lib/progress.ts:50-57 | the record at `userId_courseId` becomes this user, course and lesson; every other document is unchanged |
| Progress.AllProgress | src/lib/progress.ts:60-76 | the grouped progress has a key exactly for the users with a record, each mapped to their non-empty watched set |
| Progress.ProgressStore.constructor | src/lib/progress.ts:14-15 | handles on a fresh database: both collections empty and consistent |
| Progress.ProgressStore.MarkLessonAsWatched | src/lib/progress.ts:27-37 | the record at `userId_lesson.id` is replaced by one for this user, lesson, course and video; activity is unchanged; ids stay consistent |
| Progress.ProgressStore.GetWatchedLessonIds | src/lib/progress.ts:17-25 | returns exactly the lesson ids of the records whose `userId` is the given user |
| Progress.ProgressStore.GetLastWatchedLessonId | src/lib/progress.ts:39-47 | returns the stored `lastWatchedLessonId` at `userId_courseId`, or null when no record exists |
| Progress.ProgressStore.SetLastWatchedLesson | src/lib/progress.ts:49-58 | the record at `userId_courseId` is replaced; progress is unchanged |
| Progress.ProgressStore.GetAllProgress | src/lib/progress.ts:60-76 | assuming the store's read succeeds: throws iff some record's user id is a name a plain object inherits; otherwise returns the user-to-watched-set grouping of every record |
| ProgressProperties.MarkedLessonIsWatched | src/lib/progress.ts:17-37 | after marking, the lesson id is in the user's watched set |
| ProgressProperties.MarkTwiceIsMarkOnce | src/lib/progress.ts:28-36 | marking the same pair again, even for another course, leaves every watched set as one mark did |
| ProgressProperties.MarkKeepsIdsConsistent | src/lib/progress.ts:28-36 | marking keeps every record at the id of its own user and lesson, with no condition on `_` in the ids |
| ProgressProperties.MarkKeepsUserIdsWithoutSeparator | src/lib/progress.ts:28-36 | marking for a user id without `_` adds no record whose user id has one |
| ProgressProperties.MarkEffect | src/lib/progress.ts:28 | in a consistent store (every record at the id of its own user and lesson) with no `_` in user ids, marking adds the lesson to that user's set and changes no other user's set |
| ProgressProperties.SeparatorInUserIdLosesProgress | src/lib/progress.ts:28 | with `_` allowed, marking for `a` erases a lesson user `a_b` had watched |
| ProgressProperties.WatchedAfterCalls | src/lib/progress.ts:17-37 | in a consistent store (every record at the id of its own user and lesson) with no `_` in any user id, after a history of marks a user's watched set is the old set plus every lesson marked for the user |
| ProgressProperties.CallOrderIrrelevant | src/lib/progress.ts:17-37 | with no `_` in any user id, from an empty store the watched set depends only on which marks were made, not their order or repetition |
| ProgressProperties.SetThenGetLastWatched | src/lib/progress.ts:39-58 | the pointer just set is read back |
| ProgressProperties.LaterSetWins | src/lib/progress.ts:49-58 | of two sets for one (user, course), the later is read back |
| ProgressProperties.SetLastIsolated | src/lib/progress.ts:49-51 | with no `_` in user ids, setting one pair's pointer leaves every other pair's pointer unchanged |
| ProgressActions.ToActionResult | src/app/actions/progress-actions.ts:8-16 | success iff the write completed; otherwise the `Error`'s own message, or 'An unknown error occurred' |
| ProgressActions.MarkLessonAsWatchedAction | src/app/actions/progress-actions.ts:7-17 | the result follows the write outcome, and the store is marked only when the write completed |
| ProgressActions.SetLastWatchedLessonAction | src/app/actions/progress-actions.ts:19-26 | the same success/failure contract for the pointer write |
| ProgressActions.GetWatchedLessonIdsAction | src/app/actions/progress-actions.ts:28-30 | returns the store's watched set unchanged |
| ProgressActions.GetLastWatchedLessonIdAction | src/app/actions/progress-actions.ts:32-34 | returns the store's pointer unchanged |
| ProgressActions.GetAllProgressAction | src/app/actions/progress-actions.ts:36-43 | assuming the store's reads succeed: fails iff the grouping throws; otherwise the same user keys as the grouping, each array listing exactly its set without duplicates |
| Listing.ArrayFrom | src/app/actions/progress-actions.ts:40 | the array lists exactly the set's elements, each once |
| Listing.ListingSize | src/app/actions/progress-actions.ts:40 | such an array is as long as the set |
| Listing.FindFirst | src/lib/courses.ts:76 | none iff no element matches; otherwise the first matching element in order |
| ProgressPage.RebuildProgressData | src/app/progress/page.tsx:34-37 | the same keys, each array made into the set of its elements |
| ProgressPage.LoadProgress | src/app/progress/page.tsx:26-39 | assuming the courses call returns and the store's reads succeed: the load fails iff the grouping throws; otherwise, after the server's set-to-array conversion and the page's rebuild, the data equals the grouped progress |
| ProgressPage.LessonsFold | src/app/progress/page.tsx:45 | the left fold from `acc` is `acc` plus the number of lessons of all courses |
| ProgressPage.AllLessonsCount | src/app/progress/page.tsx:45 | the lesson total is the length of all courses' lessons together |
| ProgressPage.CatalogLessonCount | src/lib/courses.ts:3-66 | the catalog holds 17 lessons |
| ProgressPage.WatchedLessonsOf | src/app/progress/page.tsx:75 | a user missing from the data has the empty watched set |
| ProgressPage.CourseWatchedLessons | src/app/progress/page.tsx:96 | the watched lessons of a course form a subsequence of its lessons, no longer than it, holding exactly its lessons whose ids are watched |
| ProgressPage.WatchedLessonCounts | src/app/progress/page.tsx:96 | the filter keeps every occurrence of a watched lesson and none of any other |
| ProgressPage.CourseCards | src/app/progress/page.tsx:95-117 | a course gets a card iff it has a watched lesson; cards keep course order and carry the course's watched lessons |
| ProgressPage.CardCountsFollowCourses | src/app/progress/page.tsx:95-97 | a course with a watched lesson gets one card per occurrence in the list, any other course none |
| ProgressPage.UserProgressRow | src/app/progress/page.tsx:74-120 | the completed count is the whole watched set's size; the percentage is over the lesson total; the message shows iff the set is empty, and then there are no cards |
| ProgressPage.ProgressRows | src/app/progress/page.tsx:73-124 | one row per user, in user order |
| ProgressPage.EmptyWatchedNoCards | src/app/progress/page.tsx:95-97 | an empty watched set gives no course card |
| ProgressPage.WatchedWithinCoursesIsBounded | src/app/progress/page.tsx:76-77 | when every watched id is a listed lesson, the count is at most the total and the percentage is in 0..100 |
| ProgressPage.StaleProgressShowsNeither | src/app/progress/page.tsx:95-120 | watched ids outside every course give a positive count but neither cards nor the message |
| ProgressPage.StaleIdsCanPassHundredPercent | src/app/progress/page.tsx:76-77 | three watched ids over two lessons show 150 percent |
| ProgressSummary.Percentage | src/components/dashboard/progress-summary-card.tsx:19 | 0 when total is not positive, else the nearest integer to 100·completed/total with halves rounded up |
| ProgressSummary.Remaining | src/components/dashboard/progress-summary-card.tsx:20 | completed plus remaining is total; remaining is negative iff completed exceeds total |
| ProgressSummary.PercentageBounds | src/components/dashboard/progress-summary-card.tsx:19 | for 0 ≤ completed ≤ total the percentage is in 0..100, and exactly 100 when all is completed |
| ProgressSummary.PercentageMonotone | src/components/dashboard/progress-summary-card.tsx:19 | for a fixed total the percentage never falls as completed grows |
| ProgressSummary.PercentageNotClamped | src/components/dashboard/progress-summary-card.tsx:19-20 | 3 of 2 gives 150 percent and −1 remaining |
| Courses.GetCourses | src/lib/courses.ts:3-72 | returns the five courses of the static catalog, every field as listed, unchanged and in order |
| Courses.FindBySlug | src/lib/courses.ts:76 | none iff no course has the slug; otherwise the first course in order with that slug |
| Courses.GetCourseBySlug | src/lib/courses.ts:74-77 | a found course has the slug and is in the catalog; undefined iff no catalog course has it |
| Courses.CatalogIdsAndSlugsDistinct | src/lib/courses.ts:3-66 | catalog course ids and slugs are pairwise distinct |
| Courses.CatalogLessonIdsNumbered | src/lib/courses.ts:11-63 | each lesson id is its course id, `-`, and its 1-based position |
| Courses.CatalogLessonIdsUnique | src/lib/courses.ts:11-63 | no two lessons of the catalog share an id |
| Courses.LookupFindsEachCourse | src/lib/courses.ts:74-77 | every catalog course is found by its own slug |
| Users.Avatar | src/lib/users.ts:40 | the avatar URL is the placeholder prefix followed by the name's first character, nothing for an empty name |
| Users.LookupUser | src/lib/users.ts:28-35 | null iff no record has the id; otherwise the stored fields with the key as id |
| Users.UserStore.constructor | src/lib/users.ts:13 | a handle on a fresh `users` collection, holding no user |
| Users.UserStore.AddUser | src/lib/users.ts:37-44 | rejects iff `addDoc` does, and then stores nothing; otherwise stores the name and avatar under the new id and returns the user with that id |
| Users.UserStore.GetUser | src/lib/users.ts:28-35 | rejects iff `getDoc` does; otherwise returns the lookup of the id in the store |
| Users.UserStore.GetUsers | src/lib/users.ts:15-26 | every stored user once, ordered by name; the empty list when the read fails |
| Users.AddThenGetUser | src/lib/users.ts:28-44 | a user just added is read back with its name and avatar, and other lookups are unchanged |
| UserContext.FindById | src/context/user-context.tsx:25 | none iff no user has the id; otherwise the first user with it |
| UserContext.RestoredUser | src/context/user-context.tsx:23-29 | a missing or empty stored id restores nobody; otherwise the first user with that id, or nobody |
| UserContext.StoredAfterSet | src/context/user-context.tsx:40-44 | a selected user's id is stored; clearing removes the stored id |
| UserContext.SetThenRestore | src/context/user-context.tsx:23-41 | selecting a listed user with a unique, non-empty id and restoring later gives that user |
| UserContext.ClearThenRestore | src/context/user-context.tsx:23-43 | clearing and restoring later selects nobody |
| UserContext.EmptyIdIsNotRestored | src/context/user-context.tsx:24 | a user whose id is the empty string is not restored |
| UserContext.UserProvider.constructor | src/context/user-context.tsx:16-18 | starts with the initial users, nobody selected, loading |
| UserContext.UserProvider.RestoreCurrentUser | src/context/user-context.tsx:20-35 | loading ends on every path; nobody is selected when storage fails, else the restored user |
| UserContext.UserProvider.SetCurrentUser | src/context/user-context.tsx:37-48 | the selection becomes the user; the stored id follows unless storage fails |
| UserContext.UserProvider.SetUsers | src/context/user-context.tsx:16-35 | replaces the list and reruns the restore with the stored id unchanged |

## Left out

- The video player (`src/components/video-player.tsx`): its player events, timers and resize handling are event-driven I/O, not sequential logic.
- Pure rendering (login page, header, side navigation, goals card, course list, dashboard pages, layouts): they compute nothing beyond markup. Their hard-coded mock progress values are not modelled.
- The routine store and its actions: they are a thin wrapper whose merge semantics live in the database library. `resetRoutineAction` calls a function the routine module does not define.
- The course actions: they import add, update and delete functions that the course module does not export, so they have no behaviour to model. They also define no `getCoursesAction`, which the progress page imports.
- The per-course data files under `src/lib/data/courses/`: they repeat the catalog's data.
- The `watchedAt` and `lastWatchedAt` timestamps, `revalidatePath`, the 100 ms simulated latency, and `Promise.all`: they are clock, cache and concurrency effects.
- ProgressPage.LoadProgress: the page gets its courses from `getCoursesAction`, which the course-action module does not define. As written, the load therefore never completes and the page stays on its skeleton. The model assumes that call returns; its courses become the `courses` parameter of `UserProgressRow`, and the contract's "fails iff" holds under that assumption.
- Firestore itself: queries, indexes and documents become maps.
  - Document ids are opaque map keys. An id that is empty or contains `/` makes `doc()` throw or address another collection, which the model does not capture.
  - The progress reads are taken never to fail. The "iff" of `GetAllProgress`, `GetAllProgressAction` and `LoadProgress` holds under that assumption.
  - A write that throws is taken to leave the collection unchanged. A write that failed after being applied is not modelled.
  - Concurrent writers and last-writer-wins races are not modelled.
- Users.UserStore.GetUsers: the name order is taken from the query, as the `order` parameter. Firestore's byte order on UTF-8 strings and its tie-break by document id are not modelled. The model compares names by character code.
- Users.Avatar: `charAt(0)` takes one UTF-16 code unit. The model takes one Dafny character, so the two differ for characters outside the Basic Multilingual Plane.
- ProgressSummary.Percentage: it is exact rational rounding, `(200·completed + total) div (2·total)`. The model does not capture IEEE `Math.round` on a floating-point quotient, which can differ by one at exact halves.
- ProgressPage.WatchedLessonsOf: `progress[user.id] || new Set()` on a plain object gives the inherited member, not the empty set, for a user id such as `constructor`. The model gives the empty set. User ids are ids the store assigns, never such names.
- UserContext.UserProvider.SetUsers: it reruns the restore on every call. React reruns the effect only when the new list is a different reference, and the model does not track references.
- React's batched, asynchronous state updates: each provider method applies its updates in sequence. The `isLoading := true` at the start of the restore effect can be seen only between renders, and the model does not show it.
- The profile dialog is UI. It passes only trimmed, non-empty names, for which `Users.Avatar` is the prefix followed by the first character.
