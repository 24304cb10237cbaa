/** What each operation of the data store API does to the store, as pure
    functions of the store before the call: the existence checks, home-directory
    derivation and deletion, user creation, lookup and deletion, a single ACL
    grant, the permission vocabulary, a path's ACL, and the idempotent
    "ensure the user exists" step sequence. */
module Provisioning {
  import opened Paths
  import opened Irods

  /** The user type given to every user this API creates. */
  const UserType := "rodsuser"

  /** The permission name that gives full control. */
  const Own := "own"

  /** A path exists when it is a data object or a collection; an absent path is
      simply reported as not existing. */
  function PathExists(s: Store, path: string): (found: bool)
    ensures found <==> (path in s.dataObjects || path in s.collections)
  {
    var fixed := Clean(path);
    fixed in s.dataObjects || fixed in s.collections
  }

  /** A lookup that finds no such user answers `false` instead of failing. */
  function UserExists(s: Store, username: string): (found: bool)
    ensures found <==> username in s.users
  {
    match UsersGet(s, username)
    case Ok(_) => true
    case Err(UserDoesNotExist(_)) => false
    case Err(_) => false
  }

  /** The user record of `username`, or the lookup's failure. */
  function GetUser(s: Store, username: string): (r: Result<User>)
    ensures r.Ok? <==> username in s.users
    ensures r.Ok? ==> r.value == User(username, s.zone, s.users[username])
    ensures r.Err? ==> r.error == UserDoesNotExist(username)
  {
    UsersGet(s, username)
  }

  /** Removes the home collection of `username` with everything beneath it,
      when there is a collection there; otherwise leaves the store alone. */
  function DeleteHome(s: Store, username: string): (t: Store)
    ensures HomeDirectory(s.zone, username) !in s.collections ==> t == s
    ensures HomeDirectory(s.zone, username) in s.collections ==>
              t == CollectionsRemoveTree(s, HomeDirectory(s.zone, username))
    ensures t.zone == s.zone && t.users == s.users
    ensures t.vocabulary == s.vocabulary && t.refused == s.refused
  {
    var home := HomeDirectory(s.zone, username);
    if home in s.collections then CollectionsRemoveTree(s, home) else s
  }

  /** Creates `username` with the fixed user type; fails, changing nothing, when
      the name is taken or the store refuses it. */
  function CreateUser(s: Store, username: string): (o: Outcome<User>)
    ensures o.result.Ok? <==> username !in s.users && username !in s.refused
    ensures o.result.Ok? ==> o.after == s.(users := s.users[username := UserType])
    ensures o.result.Ok? ==> o.result.value == User(username, s.zone, UserType)
    ensures username in s.users ==> o.result == Err(UserAlreadyExists(username))
    ensures o.result.Err? ==> o.after == s
  {
    UsersCreate(s, username, UserType)
  }

  /** Looks the user up and removes it: an absent user fails and changes nothing;
      a present one is removed, and its home and ACL entries stay. */
  function DeleteUser(s: Store, username: string): (o: Outcome<()>)
    ensures o.result.Ok? <==> username in s.users
    ensures o.result.Ok? ==> o.after == s.(users := s.users - {username})
    ensures o.result.Err? ==> o.after == s && o.result.error == UserDoesNotExist(username)
  {
    match UsersGet(s, username)
    case Err(e) => Outcome(s, Err(e))
    case Ok(_) => Outcome(UsersRemove(s, username), Ok(()))
  }

  /** One ACL grant, without validation of its own: it succeeds exactly when the
      path exists and the principal is empty or a user, and then sets the entry
      for (path, principal) and no other. */
  function Chmod(s: Store, principal: string, permission: string, path: string): (o: Outcome<()>)
    ensures o.result.Ok? <==> PathExists(s, path) && (principal == "" || principal in s.users)
    ensures o.result.Ok? ==> o.after == s.(acl := o.after.acl)
    ensures o.result.Ok? ==> (path, principal) in o.after.acl && o.after.acl[(path, principal)] == permission
    ensures o.result.Ok? ==> forall k :: k != (path, principal) ==>
              (k in o.after.acl <==> k in s.acl) && (k in s.acl ==> o.after.acl[k] == s.acl[k])
    ensures o.result.Err? ==> o.after == s
  {
    AclsSet(s, principal, permission, Clean(path))
  }

  /** The store's permission vocabulary. */
  function ListAvailablePermissions(s: Store): (names: set<string>)
    ensures names == s.vocabulary
  {
    s.vocabulary
  }

  /** The ACL of a path that exists, by principal; a path that is neither a data
      object nor a collection fails the collection lookup. */
  function GetPermissions(s: Store, path: string): (r: Result<map<string, string>>)
    ensures r.Ok? <==> PathExists(s, path)
    ensures r.Err? ==> r.error == CollectionDoesNotExist(path)
    ensures r.Ok? ==> forall q :: q in r.value <==> (path, q) in s.acl
    ensures r.Ok? ==> forall q :: q in r.value ==> r.value[q] == s.acl[(path, q)]
  {
    var clean := Clean(path);
    if clean in s.dataObjects then Ok(AclsGet(s, clean))
    else if clean in s.collections then Ok(AclsGet(s, clean))
    else Err(CollectionDoesNotExist(path))
  }

  /** An existing user is returned as it is, with no other step. An absent user
      is created; then, when nothing exists at its home directory, the home is
      created as a collection and the user is granted ownership of it. */
  function EnsureUserExists(s: Store, username: string): (o: Outcome<User>)
    ensures o.result.Ok? <==> username in s.users || username !in s.refused
    ensures o.result.Ok? ==> o.result.value.name == username && username in o.after.users
    ensures o.result.Err? ==> o.after == s
    ensures o.after.zone == s.zone && o.after.dataObjects == s.dataObjects
    ensures o.after.vocabulary == s.vocabulary && o.after.refused == s.refused
  {
    if UserExists(s, username) then Outcome(s, GetUser(s, username))
    else
      var created := CreateUser(s, username);
      if created.result.Err? then created
      else
        var home := HomeDirectory(s.zone, username);
        if PathExists(created.after, home) then created
        else
          var grant := Chmod(CollectionsCreate(created.after, home), username, Own, home);
          match grant.result
          case Err(e) => Outcome(grant.after, Err(e))
          case Ok(_) => Outcome(grant.after, created.result)
  }

  // ---------------------------------------------------------------------------
  // Properties of the operations

  /** Removing a home takes out exactly the subtree at the home directory. */
  lemma DeleteHomeRemovesSubtree(s: Store, username: string, p: string)
    requires HomeDirectory(s.zone, username) in s.collections
    ensures var t := DeleteHome(s, username);
      && (Beneath(p, HomeDirectory(s.zone, username)) ==> !PathExists(t, p))
      && (!Beneath(p, HomeDirectory(s.zone, username)) ==>
            (p in t.collections <==> p in s.collections) && (p in t.dataObjects <==> p in s.dataObjects))
  {
  }

  /** Outside the removed home the ACL is as it was: every entry keeps its
      permission and no entry appears. */
  lemma DeleteHomeKeepsOtherGrants(s: Store, username: string, path: string, principal: string)
    requires !Beneath(path, HomeDirectory(s.zone, username))
    ensures var t := DeleteHome(s, username);
      && ((path, principal) in t.acl <==> (path, principal) in s.acl)
      && ((path, principal) in t.acl ==> t.acl[(path, principal)] == s.acl[(path, principal)])
  {
  }

  /** Deleting a home twice is the same as deleting it once. */
  lemma DeleteHomeIdempotent(s: Store, username: string)
    ensures DeleteHome(DeleteHome(s, username), username) == DeleteHome(s, username)
  {
    var home := HomeDirectory(s.zone, username);
    if home in s.collections {
      assert Beneath(home, home);
    }
  }

  /** Deleting one user's home leaves the collection or data object at the home
      path of every other user whose name has no separator; what lies beneath
      that home is the next lemma's subject. */
  lemma DeleteHomeKeepsOtherHomes(s: Store, username: string, other: string)
    requires other != username && '/' !in other
    ensures var t := DeleteHome(s, username);
      var home := HomeDirectory(s.zone, other);
      (home in t.collections <==> home in s.collections) && (home in t.dataObjects <==> home in s.dataObjects)
  {
    HomesNotNested(s.zone, username, other);
  }

  /** When neither name has a separator, deleting one user's home leaves every
      path in another user's home subtree, and every ACL entry on it, as it was. */
  lemma DeleteHomeKeepsOtherSubtrees(s: Store, username: string, other: string, p: string, principal: string)
    requires other != username && '/' !in other && '/' !in username
    requires Beneath(p, HomeDirectory(s.zone, other))
    ensures var t := DeleteHome(s, username);
      && (p in t.collections <==> p in s.collections) && (p in t.dataObjects <==> p in s.dataObjects)
      && ((p, principal) in t.acl <==> (p, principal) in s.acl)
      && ((p, principal) in t.acl ==> t.acl[(p, principal)] == s.acl[(p, principal)])
  {
    HomeSubtreesDisjoint(s.zone, other, username, p);
    DeleteHomeKeepsOtherGrants(s, username, p, principal);
  }

  /** Creating the same user twice in a row: the second call is a conflict. */
  lemma CreateUserTwiceConflicts(s: Store, username: string)
    requires CreateUser(s, username).result.Ok?
    ensures var first := CreateUser(s, username);
      CreateUser(first.after, username) == Outcome(first.after, Err(UserAlreadyExists(username)))
  {
  }

  /** Making the same grant twice in a row is the same as making it once. */
  lemma ChmodIdempotent(s: Store, principal: string, permission: string, path: string)
    ensures var first := Chmod(s, principal, permission, path);
      Chmod(first.after, principal, permission, path) == first
  {
  }

  /** Deleting a user does not touch its home directory or any ACL entry. */
  lemma DeleteUserKeepsHome(s: Store, username: string)
    ensures var t := DeleteUser(s, username).after;
      && t.collections == s.collections && t.dataObjects == s.dataObjects && t.acl == s.acl
      && (PathExists(s, HomeDirectory(s.zone, username)) ==> PathExists(t, HomeDirectory(s.zone, username)))
  {
  }

  /** For an existing user: the existing record comes back and the store is left
      completely unchanged, whether or not its home directory exists. */
  lemma EnsureExistingUserChangesNothing(s: Store, username: string)
    requires username in s.users
    ensures EnsureUserExists(s, username) == Outcome(s, Ok(User(username, s.zone, s.users[username])))
  {
  }

  /** For an absent user: the call fails, changing nothing, exactly when the store
      refuses the name; otherwise the user now exists with the fixed type, and a
      home that did not exist is now a collection that the user owns. */
  lemma EnsureAbsentUserProvisions(s: Store, username: string)
    requires username !in s.users
    ensures var o := EnsureUserExists(s, username);
      var home := HomeDirectory(s.zone, username);
      && (o.result.Err? <==> username in s.refused)
      && (o.result.Err? ==> o.after == s && o.result.error == UserRefused(username))
      && (o.result.Ok? ==> o.result.value == User(username, s.zone, UserType))
      && (o.result.Ok? ==> o.after.users == s.users[username := UserType])
      && (o.result.Ok? ==> PathExists(o.after, home))
      && (o.result.Ok? && !PathExists(s, home) ==>
            && o.after.collections == s.collections + {home}
            && o.after.acl == s.acl[(home, username) := Own])
      && (o.result.Ok? && PathExists(s, home) ==>
            o.after.collections == s.collections && o.after.acl == s.acl)
      && o.after.dataObjects == s.dataObjects
      && o.after.zone == s.zone && o.after.vocabulary == s.vocabulary && o.after.refused == s.refused
  {
    var created := CreateUser(s, username);
    var home := HomeDirectory(s.zone, username);
    if created.result.Ok? && !PathExists(s, home) {
      var made := CollectionsCreate(created.after, home);
      assert PathExists(made, home);
      assert username in made.users;
    }
  }

  /** Ensuring a user twice in a row: the second call returns what the first did
      and leaves the store as the first left it. */
  lemma EnsureUserExistsIdempotent(s: Store, username: string)
    ensures var first := EnsureUserExists(s, username);
      EnsureUserExists(first.after, username) == first
  {
    var first := EnsureUserExists(s, username);
    if username !in s.users {
      EnsureAbsentUserProvisions(s, username);
      if first.result.Ok? {
        assert first.after.users[username] == UserType;
        EnsureExistingUserChangesNothing(first.after, username);
      }
    }
  }
}
