/**
 * The user store: profiles in the `users` collection, keyed by the id the store assigns.
 */
module Users {
  import opened Wrappers
  import opened Types
  import opened Listing

  /** A stored user document; the id is its key, not a field. */
  datatype UserData = UserData(name: string, avatar: string)

  const AvatarPrefix: string := "https://placehold.co/100x100.png?text="

  /** The placeholder avatar: the prefix, then `name.charAt(0)`, which is empty for "". */
  function Avatar(name: string): (avatar: string)
    ensures |avatar| == |AvatarPrefix| + (if name == [] then 0 else 1)
    ensures avatar[..|AvatarPrefix|] == AvatarPrefix
    ensures name != [] ==> avatar[|AvatarPrefix|] == name[0]
  {
    AvatarPrefix + (if name == [] then "" else [name[0]])
  }

  /** The record `getUser(id)` builds: the key as `id`, the stored fields beside it. */
  function LookupUser(users: map<string, UserData>, id: string): (r: Option<User>)
    ensures r.None? <==> id !in users
    ensures r.Some? ==> r.value.id == id && UserData(r.value.name, r.value.avatar) == users[id]
  {
    if id in users then Some(User(id, users[id].name, users[id].avatar)) else None
  }

  /** Lexicographic order on names, by character code. */
  predicate NameLe(a: string, b: string)
    decreases |a|
  {
    a == [] || (b != [] && (a[0] < b[0] || (a[0] == b[0] && NameLe(a[1..], b[1..]))))
  }

  /** `order` lists every stored id once, the names in non-decreasing order. */
  ghost predicate OrderedByName(order: seq<string>, users: map<string, UserData>) {
    && IsListingOf(order, users.Keys)
    && forall i, j :: 0 <= i < j < |order| ==> NameLe(users[order[i]].name, users[order[j]].name)
  }

  class UserStore {
    var users: map<string, UserData>

    constructor ()
      ensures users == map[]
    {
      users := map[];
    }

    /**
     * `addUser(name)`: `addDoc` stores the record under `newId`, an id not yet in use that
     * the store chooses, and the returned user carries that id. When `addDoc` rejects
     * (`writeFails`), nothing catches it: `addUser` rejects and nothing is stored.
     */
    method AddUser(name: string, newId: string, writeFails: bool) returns (user: Settled<User>)
      requires newId !in users
      modifies this
      ensures user.Rejected? <==> writeFails
      ensures writeFails ==> users == old(users)
      ensures !writeFails ==> users == old(users)[newId := UserData(name, Avatar(name))]
      ensures user.Resolved? ==> user.value == User(newId, name, Avatar(name))
    {
      if writeFails {
        return Rejected;
      }
      var newUser := UserData(name, Avatar(name));
      users := users[newId := newUser];
      user := Resolved(User(newId, newUser.name, newUser.avatar));
    }

    /**
     * `getUser(id)`: the stored record with its key as id, `None` for `null`. When `getDoc`
     * rejects (`readFails`), nothing catches it and `getUser` rejects.
     */
    method GetUser(id: string, readFails: bool) returns (user: Settled<Option<User>>)
      ensures user.Rejected? <==> readFails
      ensures user.Resolved? ==> user.value == LookupUser(users, id)
    {
      if readFails {
        user := Rejected;
      } else if id in users {
        user := Resolved(Some(User(id, users[id].name, users[id].avatar)));
      } else {
        user := Resolved(None);
      }
    }

    /**
     * `getUsers()`: `order` is the document order of the `orderBy("name")` query. The
     * result holds every stored user once, by name; a failed read gives the empty list.
     */
    method GetUsers(readFails: bool, order: seq<string>) returns (list: seq<User>)
      requires !readFails ==> OrderedByName(order, users)
      ensures readFails ==> list == []
      ensures !readFails ==> |list| == |users|
      ensures !readFails ==> forall i :: 0 <= i < |list| ==> LookupUser(users, list[i].id) == Some(list[i])
      ensures !readFails ==> forall id :: id in users ==> exists i :: 0 <= i < |list| && list[i].id == id
      ensures forall i, j :: 0 <= i < j < |list| ==> list[i].id != list[j].id && NameLe(list[i].name, list[j].name)
    {
      if readFails {
        list := [];
      } else {
        ListingSize(order, users.Keys);
        var stored := users;
        assert forall i :: 0 <= i < |order| ==> order[i] in Elems(order);
        list := seq(|order|, i requires 0 <= i < |order| && order[i] in stored =>
                      User(order[i], stored[order[i]].name, stored[order[i]].avatar));
        forall id | id in users ensures exists i :: 0 <= i < |list| && list[i].id == id {
          assert id in Elems(order);
          var i :| 0 <= i < |order| && order[i] == id;
          assert list[i].id == id;
        }
      }
    }
  }

  /** A user just added is read back with the name and avatar it was given. */
  lemma AddThenGetUser(users: map<string, UserData>, name: string, newId: string)
    requires newId !in users
    ensures LookupUser(users[newId := UserData(name, Avatar(name))], newId) == Some(User(newId, name, Avatar(name)))
    ensures forall id :: id != newId ==> LookupUser(users[newId := UserData(name, Avatar(name))], id) == LookupUser(users, id)
  {
  }
}
