/**
 * The server actions over the progress store: the writes wrapped into success/failure
 * results, the reads passed through, and the conversion of the grouped sets into arrays.
 */
module ProgressActions {
  import opened Wrappers
  import opened Types
  import opened Listing
  import opened Progress

  /** A value a failed store call throws: an `Error` object with its message, or anything else. */
  datatype Thrown = ErrorObject(message: string) | OtherValue

  /** How the awaited store write ended. */
  datatype WriteOutcome = Completed | Threw(thrown: Thrown)

  /** `{ success: true }` or `{ success: false, message }`. */
  datatype ActionResult = Success | Failure(message: string)

  const UnknownErrorMessage: string := "An unknown error occurred"

  /** The `try`/`catch` of both write actions. */
  function ToActionResult(outcome: WriteOutcome): (r: ActionResult)
    ensures r.Success? <==> outcome.Completed?
    ensures outcome.Threw? && outcome.thrown.ErrorObject? ==> r == Failure(outcome.thrown.message)
    ensures outcome.Threw? && outcome.thrown.OtherValue? ==> r == Failure(UnknownErrorMessage)
  {
    match outcome
    case Completed => Success
    case Threw(ErrorObject(message)) => Failure(message)
    case Threw(OtherValue) => Failure(UnknownErrorMessage)
  }

  /**
   * `markLessonAsWatchedAction`: `outcome` is how the store write ends; a write that
   * throws leaves the collection as it was.
   */
  method MarkLessonAsWatchedAction(store: ProgressStore, userId: string, lesson: Lesson, courseId: string,
                                   outcome: WriteOutcome)
    returns (result: ActionResult)
    requires store.Valid()
    modifies store
    ensures store.Valid()
    ensures result == ToActionResult(outcome)
    ensures store.progress
         == if outcome.Completed? then Mark(old(store.progress), userId, lesson, courseId) else old(store.progress)
    ensures store.userActivity == old(store.userActivity)
  {
    if outcome.Completed? {
      store.MarkLessonAsWatched(userId, lesson, courseId);
    }
    result := ToActionResult(outcome);
  }

  /** `setLastWatchedLessonAction`, with the same success/failure contract. */
  method SetLastWatchedLessonAction(store: ProgressStore, userId: string, courseId: string, lessonId: string,
                                    outcome: WriteOutcome)
    returns (result: ActionResult)
    requires store.Valid()
    modifies store
    ensures store.Valid()
    ensures result == ToActionResult(outcome)
    ensures store.userActivity
         == if outcome.Completed? then SetLast(old(store.userActivity), userId, courseId, lessonId)
            else old(store.userActivity)
    ensures store.progress == old(store.progress)
  {
    if outcome.Completed? {
      store.SetLastWatchedLesson(userId, courseId, lessonId);
    }
    result := ToActionResult(outcome);
  }

  /** `getWatchedLessonIdsAction`: the store's answer, unchanged. */
  method GetWatchedLessonIdsAction(store: ProgressStore, userId: string) returns (ids: set<string>)
    ensures ids == Watched(store.progress, userId)
  {
    ids := store.GetWatchedLessonIds(userId);
  }

  /** `getLastWatchedLessonIdAction`: the store's answer, unchanged. */
  method GetLastWatchedLessonIdAction(store: ProgressStore, userId: string, courseId: string)
    returns (lessonId: Option<string>)
    ensures lessonId == LastWatched(store.userActivity, userId, courseId)
  {
    lessonId := store.GetLastWatchedLessonId(userId, courseId);
  }

  /**
   * `getAllProgressAction`: the same user keys as `getAllProgress`, each set turned into an
   * array holding exactly its elements, none twice. Nothing catches the grouping's
   * `TypeError`, so the action fails (`None`) exactly when the grouping does.
   */
  method GetAllProgressAction(store: ProgressStore) returns (progressArrays: Option<map<string, seq<string>>>)
    ensures progressArrays.None? <==> HasInheritedUserId(store.progress)
    ensures progressArrays.Some? ==> progressArrays.value.Keys == AllProgress(store.progress).Keys
    ensures progressArrays.Some? ==>
              forall u :: u in progressArrays.value ==> IsListingOf(progressArrays.value[u], AllProgress(store.progress)[u])
  {
    var grouping := store.GetAllProgress();
    if grouping.None? {
      return None;
    }
    var progressSets := grouping.value;
    var arrays := map[];
    var pending := progressSets.Keys;
    while pending != {}
      invariant pending <= progressSets.Keys
      invariant arrays.Keys == progressSets.Keys - pending
      invariant forall u :: u in arrays ==> IsListingOf(arrays[u], progressSets[u])
      decreases pending
    {
      var userId :| userId in pending;
      var lessonIds := ArrayFrom(progressSets[userId]);
      arrays := arrays[userId := lessonIds];
      pending := pending - {userId};
    }
    progressArrays := Some(arrays);
  }
}
