/**
 * The lesson-progress store: two document collections keyed by composite ids.
 * `progress` holds one record per watched (user, lesson), at id `userId_lessonId`;
 * `userActivity` holds the last lesson visited per (user, course), at id `userId_courseId`.
 * `setDoc` overwrites the whole record at an id, `getDoc` reads it.
 */
module Progress {
  import opened Wrappers
  import opened Types
  import opened DocKeys

  /** A `progress` document; its `watchedAt` timestamp is not modelled. */
  datatype ProgressRecord = ProgressRecord(userId: string, lessonId: string, courseId: string, videoId: string)

  /** A `userActivity` document; its `lastWatchedAt` timestamp is not modelled. */
  datatype ActivityRecord = ActivityRecord(userId: string, courseId: string, lastWatchedLessonId: string)

  type ProgressDocs = map<string, ProgressRecord>
  type ActivityDocs = map<string, ActivityRecord>

  function ProgressId(userId: string, lessonId: string): string {
    CompositeKey(userId, lessonId)
  }

  function ActivityId(userId: string, courseId: string): string {
    CompositeKey(userId, courseId)
  }

  /** Every progress record sits at the id built from its own user and lesson. */
  ghost predicate ProgressIdsConsistent(p: ProgressDocs) {
    forall k :: k in p ==> k == ProgressId(p[k].userId, p[k].lessonId)
  }

  /** Every activity record sits at the id built from its own user and course. */
  ghost predicate ActivityIdsConsistent(a: ActivityDocs) {
    forall k :: k in a ==> k == ActivityId(a[k].userId, a[k].courseId)
  }

  /** No stored progress record has a user id containing the separator. */
  ghost predicate UserIdsWithoutSeparator(p: ProgressDocs) {
    forall k :: k in p ==> NoSeparator(p[k].userId)
  }

  // ---------------------------------------------------------------------------------
  // Specification of the reads and writes, as functions of the collections.
  // ---------------------------------------------------------------------------------

  /** The lesson ids of the records among `keys` whose `userId` field is `userId`. */
  function WatchedAmong(p: ProgressDocs, keys: set<string>, userId: string): set<string> {
    set k | k in keys && k in p && p[k].userId == userId :: p[k].lessonId
  }

  /**
   * What `getWatchedLessonIds(userId)` returns over the whole collection: the lesson ids of
   * exactly the records whose `userId` field is `userId`, wherever they are stored.
   */
  function Watched(p: ProgressDocs, userId: string): (w: set<string>)
    ensures forall id :: id in w <==> exists k :: k in p && p[k].userId == userId && p[k].lessonId == id
  {
    WatchedAmong(p, p.Keys, userId)
  }

  /** The user ids of the records among `keys`. */
  function UsersAmong(p: ProgressDocs, keys: set<string>): set<string> {
    set k | k in keys && k in p :: p[k].userId
  }

  function AllProgressAmong(p: ProgressDocs, keys: set<string>): map<string, set<string>> {
    map u | u in UsersAmong(p, keys) :: WatchedAmong(p, keys, u)
  }

  /**
   * What `getAllProgress()` returns: a key for exactly the users that have a record,
   * each mapped to that user's watched set, which is never empty.
   */
  function AllProgress(p: ProgressDocs): (all: map<string, set<string>>)
    ensures forall u :: u in all <==> exists k :: k in p && p[k].userId == u
    ensures forall u :: u in all ==> all[u] == Watched(p, u) && all[u] != {}
  {
    var all := AllProgressAmong(p, p.Keys);
    assert forall u :: u in all ==> all[u] != {} by {
      forall u | u in all ensures all[u] != {} {
        var k :| k in p && p[k].userId == u;
        assert p[k].lessonId in all[u];
      }
    }
    all
  }

  /**
   * The progress collection after `markLessonAsWatched(userId, lesson, courseId)`: the whole
   * record at `userId_lesson.id` is replaced (or created), and no other document changes.
   */
  function Mark(p: ProgressDocs, userId: string, lesson: Lesson, courseId: string): (q: ProgressDocs)
    ensures q.Keys == p.Keys + {ProgressId(userId, lesson.id)}
    ensures q[ProgressId(userId, lesson.id)] == ProgressRecord(userId, lesson.id, courseId, lesson.videoId)
    ensures forall k :: k in p && k != ProgressId(userId, lesson.id) ==> q[k] == p[k]
  {
    p[ProgressId(userId, lesson.id) := ProgressRecord(userId, lesson.id, courseId, lesson.videoId)]
  }

  /**
   * What `getLastWatchedLessonId(userId, courseId)` returns: `None` (`null`) exactly when no
   * document sits at `userId_courseId`, else that document's `lastWatchedLessonId`.
   */
  function LastWatched(a: ActivityDocs, userId: string, courseId: string): (r: Option<string>)
    ensures r.None? <==> ActivityId(userId, courseId) !in a
    ensures r.Some? ==> r.value == a[ActivityId(userId, courseId)].lastWatchedLessonId
  {
    var id := ActivityId(userId, courseId);
    if id in a then Some(a[id].lastWatchedLessonId) else None
  }

  /**
   * The activity collection after `setLastWatchedLesson(userId, courseId, lessonId)`: the
   * whole record at `userId_courseId` is replaced (or created), and no other document changes.
   */
  function SetLast(a: ActivityDocs, userId: string, courseId: string, lessonId: string): (b: ActivityDocs)
    ensures b.Keys == a.Keys + {ActivityId(userId, courseId)}
    ensures b[ActivityId(userId, courseId)] == ActivityRecord(userId, courseId, lessonId)
    ensures forall k :: k in a && k != ActivityId(userId, courseId) ==> b[k] == a[k]
  {
    a[ActivityId(userId, courseId) := ActivityRecord(userId, courseId, lessonId)]
  }

  /**
   * The property names every plain object `{}` inherits from `Object.prototype`. Looking one
   * of them up in a fresh object gives the inherited member, not `undefined`.
   */
  const InheritedNames: set<string> := {
    "constructor", "__proto__", "hasOwnProperty", "isPrototypeOf", "propertyIsEnumerable",
    "toLocaleString", "toString", "valueOf",
    "__defineGetter__", "__defineSetter__", "__lookupGetter__", "__lookupSetter__"}

  /**
   * Some record's `userId` is an inherited name. Grouping into `{}` then finds the inherited
   * member already present (it is truthy), creates no `Set`, and calls `.add` on a value
   * that has none: a `TypeError`.
   */
  ghost predicate HasInheritedUserId(p: ProgressDocs) {
    exists k :: k in p && p[k].userId in InheritedNames
  }

  // ---------------------------------------------------------------------------------
  // The store.
  // ---------------------------------------------------------------------------------

  class ProgressStore {
    var progress: ProgressDocs
    var userActivity: ActivityDocs

    /** Only the writers below touch the collections, so every id matches its record. */
    ghost predicate Valid()
      reads this
    {
      ProgressIdsConsistent(progress) && ActivityIdsConsistent(userActivity)
    }

    constructor ()
      ensures Valid()
      ensures progress == map[] && userActivity == map[]
    {
      progress := map[];
      userActivity := map[];
    }

    /** `setDoc` of a fresh progress record at `userId_lesson.id`; activity is untouched. */
    method MarkLessonAsWatched(userId: string, lesson: Lesson, courseId: string)
      requires Valid()
      modifies this
      ensures Valid()
      ensures progress == Mark(old(progress), userId, lesson, courseId)
      ensures userActivity == old(userActivity)
    {
      var progressId := ProgressId(userId, lesson.id);
      progress := progress[progressId := ProgressRecord(userId, lesson.id, courseId, lesson.videoId)];
    }

    /** The query `where userId == userId` followed by `forEach`, adding each `lessonId`. */
    method GetWatchedLessonIds(userId: string) returns (watchedIds: set<string>)
      ensures watchedIds == Watched(progress, userId)
    {
      watchedIds := {};
      var pending := progress.Keys;
      while pending != {}
        invariant pending <= progress.Keys
        invariant watchedIds == WatchedAmong(progress, progress.Keys - pending, userId)
        decreases pending
      {
        var k :| k in pending;
        WatchedAmongStep(progress, progress.Keys - pending, k, userId);
        if progress[k].userId == userId {
          watchedIds := watchedIds + {progress[k].lessonId};
        }
        pending := pending - {k};
        assert progress.Keys - pending == (progress.Keys - (pending + {k})) + {k};
      }
    }

    /** `getDoc` on `userId_courseId`, `null` when no document exists. */
    method GetLastWatchedLessonId(userId: string, courseId: string) returns (lessonId: Option<string>)
      ensures lessonId == LastWatched(userActivity, userId, courseId)
    {
      var activityId := ActivityId(userId, courseId);
      if activityId in userActivity {
        lessonId := Some(userActivity[activityId].lastWatchedLessonId);
      } else {
        lessonId := None;
      }
    }

    /** `setDoc` of a fresh activity record at `userId_courseId`; progress is untouched. */
    method SetLastWatchedLesson(userId: string, courseId: string, lessonId: string)
      requires Valid()
      modifies this
      ensures Valid()
      ensures userActivity == SetLast(old(userActivity), userId, courseId, lessonId)
      ensures progress == old(progress)
    {
      var activityId := ActivityId(userId, courseId);
      userActivity := userActivity[activityId := ActivityRecord(userId, courseId, lessonId)];
    }

    /**
     * Every record, grouped by `userId` into a record of sets. The call throws (`None`)
     * exactly when some record's user id is an inherited name of the plain object.
     */
    method GetAllProgress() returns (allProgress: Option<map<string, set<string>>>)
      ensures allProgress.None? <==> HasInheritedUserId(progress)
      ensures allProgress.Some? ==> allProgress.value == AllProgress(progress)
    {
      var grouped := map[];
      var pending := progress.Keys;
      while pending != {}
        invariant pending <= progress.Keys
        invariant grouped == AllProgressAmong(progress, progress.Keys - pending)
        invariant forall k :: k in progress.Keys - pending ==> progress[k].userId !in InheritedNames
        decreases pending
      {
        var k :| k in pending;
        ghost var done := progress.Keys - pending;
        ghost var before := grouped;
        AllProgressStep(progress, done, k);
        var data := progress[k];
        if data.userId in InheritedNames {
          // `allProgress[userId]` is the inherited member: no `Set` is made and `.add` throws.
          return None;
        }
        if data.userId !in grouped {
          grouped := grouped[data.userId := {}];
        }
        grouped := grouped[data.userId := grouped[data.userId] + {data.lessonId}];
        assert grouped
            == before[data.userId := (if data.userId in before then before[data.userId] else {}) + {data.lessonId}];
        pending := pending - {k};
        assert progress.Keys - pending == done + {k};
      }
      assert progress.Keys - pending == progress.Keys;
      allProgress := Some(grouped);
    }
  }

  // ---------------------------------------------------------------------------------
  // Steps of the two loops.
  // ---------------------------------------------------------------------------------

  lemma WatchedAmongStep(p: ProgressDocs, done: set<string>, k: string, userId: string)
    requires k in p && k !in done
    ensures WatchedAmong(p, done + {k}, userId)
         == WatchedAmong(p, done, userId) + (if p[k].userId == userId then {p[k].lessonId} else {})
  {
  }

  lemma AllProgressStep(p: ProgressDocs, done: set<string>, k: string)
    requires k in p && k !in done
    ensures var before := AllProgressAmong(p, done);
            var u := p[k].userId;
            AllProgressAmong(p, done + {k})
            == before[u := (if u in before then before[u] else {}) + {p[k].lessonId}]
  {
    var before := AllProgressAmong(p, done);
    var u := p[k].userId;
    var after := AllProgressAmong(p, done + {k});
    assert UsersAmong(p, done + {k}) == UsersAmong(p, done) + {u};
    forall v | v in after
      ensures after[v] == before[u := (if u in before then before[u] else {}) + {p[k].lessonId}][v]
    {
      WatchedAmongStep(p, done, k, v);
    }
    if u !in before {
      assert WatchedAmong(p, done, u) == {};
    }
  }
}
