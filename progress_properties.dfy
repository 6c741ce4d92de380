/** What the progress store promises, stated over the collections it keeps. */
module ProgressProperties {
  import opened Wrappers
  import opened Types
  import opened DocKeys
  import opened Listing
  import opened Progress

  /** After marking, the lesson is among the user's watched ids. */
  lemma MarkedLessonIsWatched(p: ProgressDocs, userId: string, lesson: Lesson, courseId: string)
    ensures lesson.id in Watched(Mark(p, userId, lesson, courseId), userId)
  {
    var marked := Mark(p, userId, lesson, courseId);
    assert ProgressId(userId, lesson.id) in marked;
  }

  /**
   * Marking the same (user, lesson) again, for any course, leaves every watched set as the
   * first mark left it: the second write overwrites the same id with the same user and lesson.
   */
  lemma MarkTwiceIsMarkOnce(p: ProgressDocs, userId: string, lesson: Lesson, c1: string, c2: string, v: string)
    ensures Mark(Mark(p, userId, lesson, c1), userId, lesson, c1) == Mark(p, userId, lesson, c1)
    ensures Watched(Mark(Mark(p, userId, lesson, c1), userId, lesson, c2), v)
         == Watched(Mark(p, userId, lesson, c1), v)
  {
    var once := Mark(p, userId, lesson, c1);
    var twice := Mark(once, userId, lesson, c2);
    var id := ProgressId(userId, lesson.id);
    assert twice.Keys == once.Keys;
    assert forall k :: k in once ==> twice[k].userId == once[k].userId && twice[k].lessonId == once[k].lessonId;
  }

  /** Marking keeps every record at the id of its own user and lesson. */
  lemma MarkKeepsIdsConsistent(p: ProgressDocs, userId: string, lesson: Lesson, courseId: string)
    requires ProgressIdsConsistent(p)
    ensures ProgressIdsConsistent(Mark(p, userId, lesson, courseId))
  {
  }

  /** Marking for a user id without the separator adds no record whose user id has one. */
  lemma MarkKeepsUserIdsWithoutSeparator(p: ProgressDocs, userId: string, lesson: Lesson, courseId: string)
    requires UserIdsWithoutSeparator(p) && NoSeparator(userId)
    ensures UserIdsWithoutSeparator(Mark(p, userId, lesson, courseId))
  {
  }

  /**
   * When no user id contains the separator, marking (u, l) adds `l.id` to u's watched set and
   * changes no other user's watched set.
   */
  lemma {:induction false} MarkEffect(p: ProgressDocs, u: string, lesson: Lesson, courseId: string, v: string)
    requires ProgressIdsConsistent(p) && UserIdsWithoutSeparator(p) && NoSeparator(u)
    ensures Watched(Mark(p, u, lesson, courseId), v)
         == if v == u then Watched(p, v) + {lesson.id} else Watched(p, v)
  {
    var id := ProgressId(u, lesson.id);
    var marked := Mark(p, u, lesson, courseId);
    var expected := if v == u then Watched(p, v) + {lesson.id} else Watched(p, v);
    if id in p {
      KeyInjective(u, lesson.id, p[id].userId, p[id].lessonId);
      assert p[id].userId == u && p[id].lessonId == lesson.id;
    }
    forall x | x in Watched(marked, v) ensures x in expected {
      var k :| k in marked && marked[k].userId == v && marked[k].lessonId == x;
      if k != id {
        assert k in p && p[k] == marked[k];
      }
    }
    forall x | x in expected ensures x in Watched(marked, v) {
      if v == u && x == lesson.id {
        assert id in marked && marked[id].userId == v;
      } else {
        var k :| k in p && p[k].userId == v && p[k].lessonId == x;
        assert k != id;
        assert k in marked && marked[k] == p[k];
      }
    }
  }

  /**
   * With the separator allowed in user ids, marking for user "a" overwrites the record of
   * user "a_b": both live at the id "a_b_c", and "a_b" loses a lesson it had watched.
   */
  lemma SeparatorInUserIdLosesProgress()
    ensures var p := map[CompositeKey("a_b", "c") := ProgressRecord("a_b", "c", "1", "v1")];
            var lesson := Lesson("b_c", "t", "1:00", "v2", "u");
            && ProgressIdsConsistent(p)
            && Watched(p, "a_b") == {"c"}
            && Watched(Mark(p, "a", lesson, "1"), "a_b") == {}
  {
    var p := map[CompositeKey("a_b", "c") := ProgressRecord("a_b", "c", "1", "v1")];
    var lesson := Lesson("b_c", "t", "1:00", "v2", "u");
    var marked := Mark(p, "a", lesson, "1");
    assert CompositeKey("a", "b_c") == CompositeKey("a_b", "c");
    assert marked.Keys == {CompositeKey("a_b", "c")};
    assert "a_b" != "a";
    assert CompositeKey("a_b", "c") in p;
  }

  // ---------------------------------------------------------------------------------
  // A history of `markLessonAsWatched` calls.
  // ---------------------------------------------------------------------------------

  datatype MarkCall = MarkCall(userId: string, lesson: Lesson, courseId: string)

  /** The collection after the calls, performed left to right. */
  function ApplyMarks(p: ProgressDocs, calls: seq<MarkCall>): ProgressDocs
    decreases |calls|
  {
    if calls == [] then p
    else ApplyMarks(Mark(p, calls[0].userId, calls[0].lesson, calls[0].courseId), calls[1..])
  }

  /** The lesson ids some call marked for `userId`. */
  function MarkedFor(calls: seq<MarkCall>, userId: string): set<string> {
    set call | call in calls && call.userId == userId :: call.lesson.id
  }

  ghost predicate CallUsersWithoutSeparator(calls: seq<MarkCall>) {
    forall i :: 0 <= i < |calls| ==> NoSeparator(calls[i].userId)
  }

  /**
   * After a history of marks, a user's watched set is what it was plus every lesson some
   * call marked for that user.
   */
  lemma {:induction false} WatchedAfterCalls(p: ProgressDocs, calls: seq<MarkCall>, u: string)
    requires ProgressIdsConsistent(p) && UserIdsWithoutSeparator(p)
    requires CallUsersWithoutSeparator(calls)
    ensures Watched(ApplyMarks(p, calls), u) == Watched(p, u) + MarkedFor(calls, u)
    decreases |calls|
  {
    if calls != [] {
      var c := calls[0];
      var next := Mark(p, c.userId, c.lesson, c.courseId);
      MarkKeepsIdsConsistent(p, c.userId, c.lesson, c.courseId);
      MarkKeepsUserIdsWithoutSeparator(p, c.userId, c.lesson, c.courseId);
      MarkEffect(p, c.userId, c.lesson, c.courseId, u);
      LaterCalls(calls, u);
      WatchedAfterCalls(next, calls[1..], u);
    }
  }

  /** The calls after the first keep the separator condition and add their own marks. */
  lemma LaterCalls(calls: seq<MarkCall>, u: string)
    requires calls != [] && CallUsersWithoutSeparator(calls)
    ensures CallUsersWithoutSeparator(calls[1..])
    ensures MarkedFor(calls, u)
         == (if calls[0].userId == u then {calls[0].lesson.id} else {}) + MarkedFor(calls[1..], u)
  {
    forall i | 0 <= i < |calls[1..]| ensures NoSeparator(calls[1..][i].userId) {
      assert calls[1..][i] == calls[i + 1];
    }
    assert calls == [calls[0]] + calls[1..];
  }

  /**
   * Starting from an empty collection, the watched set depends only on which calls were made:
   * not on their order, nor on how often each was repeated.
   */
  lemma CallOrderIrrelevant(calls1: seq<MarkCall>, calls2: seq<MarkCall>, u: string)
    requires CallUsersWithoutSeparator(calls1) && CallUsersWithoutSeparator(calls2)
    requires Elems(calls1) == Elems(calls2)
    ensures Watched(ApplyMarks(map[], calls1), u) == Watched(ApplyMarks(map[], calls2), u)
    ensures Watched(ApplyMarks(map[], calls1), u) == MarkedFor(calls1, u)
  {
    WatchedAfterCalls(map[], calls1, u);
    WatchedAfterCalls(map[], calls2, u);
    assert Watched(map[], u) == {};
    forall x | x in MarkedFor(calls1, u) ensures x in MarkedFor(calls2, u) {
      var call :| call in calls1 && call.userId == u && call.lesson.id == x;
      assert call in Elems(calls2);
    }
    forall x | x in MarkedFor(calls2, u) ensures x in MarkedFor(calls1, u) {
      var call :| call in calls2 && call.userId == u && call.lesson.id == x;
      assert call in Elems(calls1);
    }
  }

  // ---------------------------------------------------------------------------------
  // The last-watched pointer.
  // ---------------------------------------------------------------------------------

  /** Write-then-read: the pointer just set is the one read back. */
  lemma SetThenGetLastWatched(a: ActivityDocs, u: string, courseId: string, lessonId: string)
    ensures LastWatched(SetLast(a, u, courseId, lessonId), u, courseId) == Some(lessonId)
  {
  }

  /** Of two sets for the same (user, course), the later one wins. */
  lemma LaterSetWins(a: ActivityDocs, u: string, courseId: string, first: string, second: string)
    ensures LastWatched(SetLast(SetLast(a, u, courseId, first), u, courseId, second), u, courseId) == Some(second)
  {
  }

  /**
   * When the user ids contain no separator, setting the pointer of one (user, course) leaves
   * the pointer of every other pair as it was.
   */
  lemma SetLastIsolated(a: ActivityDocs, u: string, c: string, lessonId: string, u': string, c': string)
    requires NoSeparator(u) && NoSeparator(u')
    requires (u, c) != (u', c')
    ensures LastWatched(SetLast(a, u, c, lessonId), u', c') == LastWatched(a, u', c')
  {
    KeyInjective(u, c, u', c');
  }
}
