/**
 * The current-user context: the profile list, the selected profile, the loading flag and
 * the one persisted value, the selected id under the storage key `currentUser`.
 */
module UserContext {
  import opened Wrappers
  import opened Types
  import opened Listing

  /** `users.find(u => u.id === id)`: the first user with that id. */
  function FindById(users: seq<User>, id: string): (r: Option<User>)
    ensures r.None? <==> forall i :: 0 <= i < |users| ==> users[i].id != id
    ensures r.Some? ==> exists i :: 0 <= i < |users| && users[i] == r.value && r.value.id == id
                                    && forall j :: 0 <= j < i ==> users[j].id != id
  {
    FindFirst(users, (u: User) => u.id == id)
  }

  /**
   * The restore effect when storage can be read: a missing or empty stored id (both falsy)
   * selects nobody, otherwise the first user with the stored id, or nobody.
   */
  function RestoredUser(users: seq<User>, stored: Option<string>): (r: Option<User>)
    ensures stored == None || stored == Some("") ==> r == None
    ensures stored.Some? && stored.value != "" ==> r == FindById(users, stored.value)
  {
    match stored
    case None => None
    case Some(id) => if id == "" then None else FindById(users, id)
  }

  /** The stored id after `setCurrentUser(user)` when storage can be written. */
  function StoredAfterSet(user: Option<User>): (stored: Option<string>)
    ensures user.Some? ==> stored == Some(user.value.id)
    ensures user.None? ==> stored == None
  {
    match user
    case Some(u) => Some(u.id)
    case None => None
  }

  predicate UniqueIds(users: seq<User>) {
    forall i, j :: 0 <= i < j < |users| ==> users[i].id != users[j].id
  }

  /**
   * Selecting a listed user and restoring later gives that user back, when ids are unique
   * and the id is not the empty string.
   */
  lemma SetThenRestore(users: seq<User>, u: User)
    requires u in users && UniqueIds(users) && u.id != ""
    ensures RestoredUser(users, StoredAfterSet(Some(u))) == Some(u)
  {
    var r := FindById(users, u.id);
    var k :| 0 <= k < |users| && users[k] == u;
    var i :| 0 <= i < |users| && users[i] == r.value && r.value.id == u.id
             && forall j :: 0 <= j < i ==> users[j].id != u.id;
    assert i == k by {
      assert !(i < k) && !(k < i);
    }
  }

  /** Clearing the selection and restoring later selects nobody. */
  lemma ClearThenRestore(users: seq<User>)
    ensures RestoredUser(users, StoredAfterSet(None)) == None
  {
  }

  /** With an empty stored id the restore selects nobody, even if a user has that id. */
  lemma EmptyIdIsNotRestored()
    ensures RestoredUser([User("", "n", "a")], StoredAfterSet(Some(User("", "n", "a")))) == None
  {
  }

  class UserProvider {
    var users: seq<User>
    var currentUser: Option<User>
    var isLoading: bool
    /** The value under the storage key `currentUser`; `None` when absent. */
    var storedUserId: Option<string>

    /** The provider as first rendered: nobody selected, still loading. */
    constructor (initialUsers: seq<User>, storedUserId: Option<string>)
      ensures users == initialUsers && this.storedUserId == storedUserId
      ensures currentUser == None && isLoading
    {
      users := initialUsers;
      currentUser := None;
      isLoading := true;
      this.storedUserId := storedUserId;
    }

    /**
     * The effect that runs whenever `users` changes; `storageFails` is whether reading the
     * storage throws, in which case nobody is selected. Loading ends on every path.
     */
    method RestoreCurrentUser(storageFails: bool)
      modifies this
      ensures !isLoading
      ensures currentUser == if storageFails then None else RestoredUser(users, storedUserId)
      ensures users == old(users) && storedUserId == old(storedUserId)
    {
      isLoading := true;
      if storageFails {
        currentUser := None;
      } else {
        var lastUserId := storedUserId;
        if lastUserId.Some? && lastUserId.value != "" {
          currentUser := FindById(users, lastUserId.value);
        } else {
          currentUser := None;
        }
      }
      isLoading := false;
    }

    /**
     * `setCurrentUser(user)`: the selection changes whatever happens; the stored id follows
     * it unless the storage write throws (`storageFails`), which is swallowed.
     */
    method SetCurrentUser(user: Option<User>, storageFails: bool)
      modifies this
      ensures currentUser == user
      ensures storedUserId == if storageFails then old(storedUserId) else StoredAfterSet(user)
      ensures users == old(users) && isLoading == old(isLoading)
    {
      currentUser := user;
      if !storageFails {
        if user.Some? {
          storedUserId := Some(user.value.id);
        } else {
          storedUserId := None;
        }
      }
    }

    /** `setUsers(newUsers)`, after which the restore effect runs again. */
    method SetUsers(newUsers: seq<User>, storageFails: bool)
      modifies this
      ensures users == newUsers && storedUserId == old(storedUserId) && !isLoading
      ensures currentUser == if storageFails then None else RestoredUser(newUsers, storedUserId)
    {
      users := newUsers;
      RestoreCurrentUser(storageFails);
    }
  }
}
