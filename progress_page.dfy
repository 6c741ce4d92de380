/**
 * The learner-progress page: rebuilding the sets from the action's arrays, the lesson
 * total, and each user's completed count, percentage and per-course watched lists.
 */
module ProgressPage {
  import opened Wrappers
  import opened Types
  import opened Listing
  import opened Progress
  import opened ProgressActions
  import opened ProgressSummary
  import Courses

  // ---------------------------------------------------------------------------------
  // Loading: arrays back into sets.
  // ---------------------------------------------------------------------------------

  /** The `loadData` loop: every user key of the action's record, its array made a set. */
  method RebuildProgressData(allProgress: map<string, seq<string>>) returns (progressData: map<string, set<string>>)
    ensures progressData.Keys == allProgress.Keys
    ensures forall u :: u in progressData ==> progressData[u] == Elems(allProgress[u])
  {
    progressData := map[];
    var pending := allProgress.Keys;
    while pending != {}
      invariant pending <= allProgress.Keys
      invariant progressData.Keys == allProgress.Keys - pending
      invariant forall u :: u in progressData ==> progressData[u] == Elems(allProgress[u])
      decreases pending
    {
      var userId :| userId in pending;
      progressData := progressData[userId := Elems(allProgress[userId])];
      pending := pending - {userId};
    }
  }

  /**
   * The round trip of the page load: sets to arrays on the server, arrays to sets on the
   * page, gives back exactly what `getAllProgress` computed, with no key added or lost.
   * When the action fails, `Promise.all` rejects before `setProgress` runs (`None`): the
   * page keeps its loading skeleton. The users and courses fetched beside it are taken to
   * arrive; they are the parameters of `ProgressRows`.
   */
  method LoadProgress(store: ProgressStore) returns (progressData: Option<map<string, set<string>>>)
    ensures progressData.None? <==> HasInheritedUserId(store.progress)
    ensures progressData.Some? ==> progressData.value == AllProgress(store.progress)
  {
    var arrays := GetAllProgressAction(store);
    if arrays.None? {
      return None;
    }
    var rebuilt := RebuildProgressData(arrays.value);
    var all := AllProgress(store.progress);
    assert forall u :: u in rebuilt ==> rebuilt[u] == all[u];
    progressData := Some(rebuilt);
  }

  // ---------------------------------------------------------------------------------
  // The lesson total.
  // ---------------------------------------------------------------------------------

  /** The lessons of all courses, course after course. */
  function AllLessons(courses: seq<Course>): seq<Lesson> {
    if courses == [] then [] else courses[0].lessons + AllLessons(courses[1..])
  }

  /**
   * `reduce((acc, course) => acc + course.lessons.length, acc)`, a left fold: it adds the
   * number of lessons of all courses to `acc`.
   */
  function LessonsFold(courses: seq<Course>, acc: nat): (n: nat)
    ensures n == acc + |AllLessons(courses)|
    decreases |courses|
  {
    if courses == [] then acc else LessonsFold(courses[1..], acc + |courses[0].lessons|)
  }

  /** `allLessonsCount`: the number of lessons over all courses. */
  function AllLessonsCount(courses: seq<Course>): (n: nat)
    ensures n == |AllLessons(courses)|
  {
    LessonsFold(courses, 0)
  }

  /** The static catalog holds seventeen lessons. */
  lemma CatalogLessonCount()
    ensures AllLessonsCount(Courses.Catalog) == 17
  {
  }

  function LessonIds(lessons: seq<Lesson>): set<string> {
    set l | l in lessons :: l.id
  }

  lemma {:induction false} LessonIdsAtMostLessons(lessons: seq<Lesson>)
    ensures |LessonIds(lessons)| <= |lessons|
  {
    if lessons != [] {
      LessonIdsAtMostLessons(lessons[1..]);
      assert LessonIds(lessons) == {lessons[0].id} + LessonIds(lessons[1..]);
    }
  }

  lemma {:induction false} LessonsOfCourseAreInAll(courses: seq<Course>, c: Course, l: Lesson)
    requires c in courses && l in c.lessons
    ensures l in AllLessons(courses)
  {
    if courses[0] != c {
      LessonsOfCourseAreInAll(courses[1..], c, l);
    }
  }

  // ---------------------------------------------------------------------------------
  // One user's row.
  // ---------------------------------------------------------------------------------

  /** `progress[user.id] || new Set()`. */
  function WatchedLessonsOf(progress: map<string, set<string>>, userId: string): (w: set<string>)
    ensures userId !in progress ==> w == {}
    ensures userId in progress ==> w == progress[userId]
  {
    if userId in progress then progress[userId] else {}
  }

  /** `course.lessons.filter(l => watchedLessons.has(l.id))`. */
  function CourseWatchedLessons(lessons: seq<Lesson>, watched: set<string>): (r: seq<Lesson>)
    ensures |r| <= |lessons|
    ensures forall l :: l in r <==> l in lessons && l.id in watched
    ensures IsSubsequence(r, lessons)
  {
    if lessons == [] then []
    else
      var rest := CourseWatchedLessons(lessons[1..], watched);
      if lessons[0].id in watched then
        assert ([lessons[0]] + rest)[1..] == rest;
        [lessons[0]] + rest
      else rest
  }

  /**
   * The filter keeps every occurrence of a watched lesson and drops every other: the
   * "n of m lessons watched" count is fixed even when a lesson is listed twice.
   */
  lemma {:induction false} WatchedLessonCounts(lessons: seq<Lesson>, watched: set<string>, l: Lesson)
    ensures multiset(CourseWatchedLessons(lessons, watched))[l]
         == if l.id in watched then multiset(lessons)[l] else 0
  {
    if lessons != [] {
      WatchedLessonCounts(lessons[1..], watched, l);
      assert lessons == [lessons[0]] + lessons[1..];
    }
  }

  /** A course card: the course and its watched lessons, in course order. */
  datatype CourseCard = CourseCard(course: Course, watchedLessons: seq<Lesson>)

  function CardCourses(cards: seq<CourseCard>): (r: seq<Course>)
    ensures |r| == |cards|
    ensures forall k :: 0 <= k < |cards| ==> r[k] == cards[k].course
  {
    if cards == [] then [] else [cards[0].course] + CardCourses(cards[1..])
  }

  /** The cards `courses.map` renders: a course with no watched lesson gives no card. */
  function CourseCards(courses: seq<Course>, watched: set<string>): (cards: seq<CourseCard>)
    ensures |cards| <= |courses|
    ensures forall k :: 0 <= k < |cards| ==>
              && cards[k].course in courses
              && cards[k].watchedLessons == CourseWatchedLessons(cards[k].course.lessons, watched)
              && cards[k].watchedLessons != []
    ensures forall c :: c in courses && CourseWatchedLessons(c.lessons, watched) != [] ==>
              exists k :: 0 <= k < |cards| && cards[k].course == c
    ensures IsSubsequence(CardCourses(cards), courses)
  {
    if courses == [] then []
    else
      var rest := CourseCards(courses[1..], watched);
      var w := CourseWatchedLessons(courses[0].lessons, watched);
      if w == [] then rest
      else
        var cards := [CourseCard(courses[0], w)] + rest;
        assert cards[1..] == rest;
        assert CardCourses(cards)[1..] == CardCourses(rest);
        assert forall k :: 0 < k < |cards| ==> cards[k] == rest[k - 1];
        cards
  }

  /**
   * Each course gets as many cards as it occurs in the list when it has a watched lesson,
   * and none otherwise.
   */
  lemma {:induction false} CardCountsFollowCourses(courses: seq<Course>, watched: set<string>, c: Course)
    ensures multiset(CardCourses(CourseCards(courses, watched)))[c]
         == if CourseWatchedLessons(c.lessons, watched) != [] then multiset(courses)[c] else 0
  {
    if courses != [] {
      CardCountsFollowCourses(courses[1..], watched, c);
      CountCons(courses[0], courses[1..], c);
      assert [courses[0]] + courses[1..] == courses;
      var rest := CourseCards(courses[1..], watched);
      var w := CourseWatchedLessons(courses[0].lessons, watched);
      if w != [] {
        var cards := [CourseCard(courses[0], w)] + rest;
        assert CardCourses(cards) == [courses[0]] + CardCourses(rest);
        CountCons(courses[0], CardCourses(rest), c);
      }
    }
  }

  lemma CountCons<T>(x: T, s: seq<T>, y: T)
    ensures multiset([x] + s)[y] == multiset(s)[y] + (if x == y then 1 else 0)
  {
    assert multiset([x] + s) == multiset{x} + multiset(s);
  }

  /** What the page shows for one user. */
  datatype UserRow = UserRow(
    userId: string, completedCount: nat, allLessonsCount: nat, percentage: int,
    cards: seq<CourseCard>, showsNoProgress: bool)

  /**
   * One accordion item. The completed count is the size of the whole watched set, ids of
   * lessons no longer in any course included; the "no progress" message appears exactly
   * when that set is empty, and then no course card is shown.
   */
  function UserProgressRow(progress: map<string, set<string>>, userId: string, courses: seq<Course>): (row: UserRow)
    ensures row.userId == userId
    ensures row.completedCount == |WatchedLessonsOf(progress, userId)|
    ensures row.allLessonsCount == |AllLessons(courses)|
    ensures row.percentage == Percentage(row.completedCount, row.allLessonsCount)
    ensures row.cards == CourseCards(courses, WatchedLessonsOf(progress, userId))
    ensures row.showsNoProgress <==> WatchedLessonsOf(progress, userId) == {}
    ensures userId !in progress ==> row.completedCount == 0 && row.showsNoProgress
    ensures row.showsNoProgress ==> row.cards == []
  {
    var watched := WatchedLessonsOf(progress, userId);
    var total := AllLessonsCount(courses);
    var cards := CourseCards(courses, watched);
    EmptyWatchedNoCards(courses, watched);
    UserRow(userId, |watched|, total, Percentage(|watched|, total), cards, |watched| == 0)
  }

  /** The rows for all users, in the order of the user list. */
  function ProgressRows(users: seq<User>, progress: map<string, set<string>>, courses: seq<Course>): (rows: seq<UserRow>)
    ensures |rows| == |users|
    ensures forall i :: 0 <= i < |users| ==> rows[i] == UserProgressRow(progress, users[i].id, courses)
  {
    seq(|users|, i requires 0 <= i < |users| => UserProgressRow(progress, users[i].id, courses))
  }

  lemma {:induction false} NoneWatchedIsEmpty(lessons: seq<Lesson>, watched: set<string>)
    requires forall l :: l in lessons ==> l.id !in watched
    ensures CourseWatchedLessons(lessons, watched) == []
  {
    if lessons != [] {
      NoneWatchedIsEmpty(lessons[1..], watched);
    }
  }

  lemma EmptyWatchedNoCards(courses: seq<Course>, watched: set<string>)
    ensures watched == {} ==> CourseCards(courses, watched) == []
  {
    if watched == {} {
      forall c | c in courses ensures CourseWatchedLessons(c.lessons, watched) == [] {
        NoneWatchedIsEmpty(c.lessons, watched);
      }
      NoWatchedNoCards(courses, watched);
    }
  }

  lemma {:induction false} NoWatchedNoCards(courses: seq<Course>, watched: set<string>)
    requires forall c :: c in courses ==> CourseWatchedLessons(c.lessons, watched) == []
    ensures CourseCards(courses, watched) == []
  {
    if courses != [] {
      NoWatchedNoCards(courses[1..], watched);
    }
  }

  // ---------------------------------------------------------------------------------
  // Bounds and the cases the page does not guard against.
  // ---------------------------------------------------------------------------------

  /**
   * When every watched id is a lesson of the listed courses, the count is at most the lesson
   * total and the percentage lies in 0..100.
   */
  lemma WatchedWithinCoursesIsBounded(watched: set<string>, courses: seq<Course>)
    requires watched <= LessonIds(AllLessons(courses))
    ensures |watched| <= AllLessonsCount(courses)
    ensures 0 <= Percentage(|watched|, AllLessonsCount(courses)) <= 100
  {
    LessonIdsAtMostLessons(AllLessons(courses));
    assert |watched| <= |LessonIds(AllLessons(courses))| by {
      // a subset is no larger
      var ids := LessonIds(AllLessons(courses));
      assert ids == watched + (ids - watched);
    }
    PercentageBounds(|watched|, AllLessonsCount(courses));
  }

  /**
   * A user whose watched ids all belong to lessons no longer in any course gets neither a
   * course card nor the "no progress" message, yet a non-zero completed count.
   */
  lemma StaleProgressShowsNeither(progress: map<string, set<string>>, userId: string, courses: seq<Course>)
    requires WatchedLessonsOf(progress, userId) != {}
    requires WatchedLessonsOf(progress, userId) !! LessonIds(AllLessons(courses))
    ensures UserProgressRow(progress, userId, courses).cards == []
    ensures !UserProgressRow(progress, userId, courses).showsNoProgress
    ensures UserProgressRow(progress, userId, courses).completedCount > 0
  {
    var watched := WatchedLessonsOf(progress, userId);
    forall c | c in courses ensures CourseWatchedLessons(c.lessons, watched) == [] {
      forall l | l in c.lessons ensures l.id !in watched {
        LessonsOfCourseAreInAll(courses, c, l);
      }
      NoneWatchedIsEmpty(c.lessons, watched);
    }
    NoWatchedNoCards(courses, watched);
  }

  /** The count includes stale ids, so the percentage can pass 100. */
  lemma StaleIdsCanPassHundredPercent()
    ensures var course := Course("5", "s", "t", "d", "i",
                                 [Lesson("5-1", "a", "05:00", "v", "p"), Lesson("5-2", "b", "10:00", "v", "p")]);
            var row := UserProgressRow(map["u" := {"5-1", "5-2", "9-9"}], "u", [course]);
            row.completedCount == 3 && row.allLessonsCount == 2 && row.percentage == 150
  {
    var course := Course("5", "s", "t", "d", "i",
                         [Lesson("5-1", "a", "05:00", "v", "p"), Lesson("5-2", "b", "10:00", "v", "p")]);
    var progress := map["u" := {"5-1", "5-2", "9-9"}];
    assert WatchedLessonsOf(progress, "u") == {"5-1", "5-2", "9-9"};
    assert |{"5-1", "5-2", "9-9"}| == 3;
    assert AllLessons([course]) == course.lessons;
    assert Percentage(3, 2) == 150;
  }
}
