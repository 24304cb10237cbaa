/** The HTTP handlers of the provisioning service, as pure functions of the store
    before the request: which checks run in which order, which reply each check
    produces, and what the store looks like afterwards. Transport, routing and
    marshalling are not modelled; a reply stands for the JSON body and status. */
module Service {
  import opened Paths
  import opened Irods
  import P = Provisioning

  datatype Option<T> = None | Some(value: T)

  /** The JSON bodies of successful replies. */
  datatype Body =
    | PathStatus(path: string, present: bool)
    | UserStatus(user: string, present: bool)
    | Permissions(names: set<string>)
    | PathGrants(grants: map<string, string>)
    | CreatedUser(user: string, userType: string, zone: string)
    | UserName(user: string)
    | UserHome(user: string, home: string)
    | PermissionChange(username: string, path: string, permission: string)
    | Registration(user: string, irodsPath: string, irodsUser: Option<string>)

  /** A reply: a body with status 200; a status-400 error the handler raises with
      its detail message; a store failure the exception middleware turns into
      status 500; or the status-500 error registration raises when the user
      cannot be prepared. */
  datatype Reply =
    | Done(body: Body)
    | BadRequest(detail: string)
    | Unhandled(cause: DsError)
    | UserNotReady(user: string, cause: DsError)

  /** The store after a request, with the reply. */
  datatype Exchange = Exchange(after: Store, reply: Reply)

  /** The HTTP status of a reply. */
  function Status(r: Reply): (code: int)
    ensures code == 200 <==> r.Done?
    ensures code == 400 <==> r.BadRequest?
    ensures code == 500 <==> r.Unhandled? || r.UserNotReady?
  {
    match r
    case Done(_) => 200
    case BadRequest(_) => 400
    case Unhandled(_) => 500
    case UserNotReady(_, _) => 500
  }

  const EmptyUsername := "username must not be empty"
  const PathNotSet := "path query parameter is not set"
  const Inherit := "inherit"

  // ---------------------------------------------------------------------------
  // Read-only handlers

  /** GET /path/exists */
  function PathExists(s: Store, path: string): (r: Reply)
    ensures r.Done? <==> path != ""
    ensures r.Done? ==> r.body == PathStatus(path, path in s.dataObjects || path in s.collections)
    ensures !r.Done? ==> r == BadRequest(PathNotSet)
  {
    if path == "" then BadRequest(PathNotSet)
    else Done(PathStatus(path, P.PathExists(s, path)))
  }

  /** GET /users/{username}/exists */
  function UserExists(s: Store, username: string): (r: Reply)
    ensures r.Done? <==> username != ""
    ensures r.Done? ==> r.body == UserStatus(username, username in s.users)
    ensures !r.Done? ==> r == BadRequest(EmptyUsername)
  {
    if username == "" then BadRequest(EmptyUsername)
    else Done(UserStatus(username, P.UserExists(s, username)))
  }

  /** GET /permissions/available */
  function ListAvailablePermissions(s: Store): (r: Reply)
    ensures r == Done(Permissions(s.vocabulary))
  {
    Done(Permissions(P.ListAvailablePermissions(s)))
  }

  /** GET /path/permissions */
  function PathPermissions(s: Store, path: string): (r: Reply)
    ensures r.Done? <==> path != "" && (path in s.dataObjects || path in s.collections)
    ensures r.Done? ==> r.body == PathGrants(AclsGet(s, path))
    ensures path == "" ==> r == BadRequest(PathNotSet)
    ensures path != "" && !r.Done? ==> r == Unhandled(CollectionDoesNotExist(path))
  {
    if path == "" then BadRequest(PathNotSet)
    else match P.GetPermissions(s, path)
      case Ok(grants) => Done(PathGrants(grants))
      case Err(e) => Unhandled(e)
  }

  /** GET /users/{username}/home */
  function GetHomeDir(s: Store, username: string): (r: Reply)
    ensures username != "" ==> r == Done(UserHome(username, "/" + s.zone + "/home/" + username))
    ensures username == "" ==> r == BadRequest(EmptyUsername)
  {
    if username == "" then BadRequest(EmptyUsername)
    else Done(UserHome(username, HomeDirectory(s.zone, username)))
  }

  // ---------------------------------------------------------------------------
  // Handlers that change the store

  /** POST /users/{username} */
  function CreateUser(s: Store, username: string): (e: Exchange)
    ensures Status(e.reply) == 400 <==> username == "" || username in s.users
    ensures e.reply.Unhandled? ==> e.reply == Unhandled(UserRefused(username))
    ensures e.after.collections == s.collections && e.after.acl == s.acl
  {
    if username == "" then Exchange(s, BadRequest(EmptyUsername))
    else if P.UserExists(s, username) then Exchange(s, BadRequest("user exists"))
    else
      var created := P.CreateUser(s, username);
      match created.result
      case Ok(user) => Exchange(created.after, Done(CreatedUser(user.name, user.userType, user.zone)))
      case Err(e) => Exchange(created.after, Unhandled(e))
  }

  /** DELETE /users/{username} */
  function DeleteUser(s: Store, username: string): (e: Exchange)
    ensures e.reply.Done? <==> username != "" && username in s.users
    ensures e.after.collections == s.collections && e.after.dataObjects == s.dataObjects
    ensures e.after.acl == s.acl
  {
    if username == "" then Exchange(s, BadRequest(EmptyUsername))
    else
      var deleted := P.DeleteUser(s, username);
      match deleted.result
      case Ok(_) => Exchange(deleted.after, Done(UserName(username)))
      case Err(e) => Exchange(deleted.after, Unhandled(e))
  }

  /** DELETE /users/{username}/home */
  function DeleteHome(s: Store, username: string): (e: Exchange)
    ensures username == "" ==> e == Exchange(s, BadRequest(EmptyUsername))
    ensures username != "" ==> e.reply == Done(UserHome(username, HomeDirectory(s.zone, username)))
    ensures username != "" && HomeDirectory(s.zone, username) in s.collections ==>
              !P.PathExists(e.after, HomeDirectory(s.zone, username))
    ensures username != "" ==> e.after == P.DeleteHome(s, username)
    ensures e.after.users == s.users
  {
    if username == "" then Exchange(s, BadRequest(EmptyUsername))
    else
      var t := P.DeleteHome(s, username);
      Exchange(t, Done(UserHome(username, HomeDirectory(t.zone, username))))
  }

  /** POST /path/chmod: six checks in order, then one grant. */
  function Chmod(s: Store, username: string, path: string, permission: string): (e: Exchange)
    ensures !e.reply.Unhandled?
    ensures e.reply.BadRequest? ==> e.after == s
    ensures e.after == s.(acl := e.after.acl)
  {
    if username == "" then Exchange(s, BadRequest("username must be set in request body"))
    else if path == "" then Exchange(s, BadRequest("path must be set in request body"))
    else if permission == "" then Exchange(s, BadRequest("permission must be set in request body"))
    else if !P.UserExists(s, username) then
      Exchange(s, BadRequest("username " + username + " does not exist"))
    else if permission !in P.ListAvailablePermissions(s) then
      Exchange(s, BadRequest("permission " + permission + " does not exist"))
    else if !P.PathExists(s, path) then
      Exchange(s, BadRequest("path " + path + " does not exist"))
    else
      var grant := P.Chmod(s, username, permission, path);
      match grant.result
      case Ok(_) => Exchange(grant.after, Done(PermissionChange(username, path, permission)))
      case Err(e) => Exchange(grant.after, Unhandled(e))
  }

  /** The collection a registration provisions: the sub-path joined onto the
      user's home directory. */
  function FullPath(zone: string, username: string, irodsPath: string): string
  {
    Join(HomeDirectory(zone, username), irodsPath)
  }

  /** POST /services/register: validate, ensure the user, create the joined
      path if absent, then make the grants. */
  function ServiceRegistration(s: Store, username: string, irodsPath: string, irodsUser: Option<string>): (e: Exchange)
    ensures e.reply.BadRequest? <==> username == "" || irodsPath == ""
    ensures e.reply.Done? ==> e.reply.body == Registration(username, FullPath(s.zone, username, irodsPath), irodsUser)
    ensures e.after.zone == s.zone && e.after.dataObjects == s.dataObjects
    ensures e.after.vocabulary == s.vocabulary && e.after.refused == s.refused
  {
    if username == "" then Exchange(s, BadRequest(EmptyUsername))
    else if irodsPath == "" then Exchange(s, BadRequest("irods_path must not be empty"))
    else
      var ensured := P.EnsureUserExists(s, username);
      if ensured.result.Err? then Exchange(ensured.after, UserNotReady(username, ensured.result.error))
      else
        var fullPath := FullPath(ensured.after.zone, username, irodsPath);
        GrantAccess(CreateIfAbsent(ensured.after, fullPath), username, fullPath, irodsUser)
  }

  /** The exists-then-create step of registration: a collection is created only
      when nothing exists at the path. */
  function CreateIfAbsent(s: Store, path: string): (t: Store)
    ensures P.PathExists(t, path)
    ensures P.PathExists(s, path) ==> t == s
    ensures !P.PathExists(s, path) ==> t == s.(collections := s.collections + {path})
  {
    if P.PathExists(s, path) then s else CollectionsCreate(s, path)
  }

  /** The grants of registration, in order: inherit to the empty principal,
      ownership to the user, ownership to the secondary user when one is given.
      The first failing grant ends the request with status 500. */
  function GrantAccess(s: Store, username: string, fullPath: string, irodsUser: Option<string>): (e: Exchange)
    ensures e.reply.Done? || e.reply.Unhandled?
    ensures e.reply.Done? ==> e.reply.body == Registration(username, fullPath, irodsUser)
    ensures e.after == s.(acl := e.after.acl)
  {
    var inherit := P.Chmod(s, "", Inherit, fullPath);
    if inherit.result.Err? then Exchange(inherit.after, Unhandled(inherit.result.error))
    else
      var owner := P.Chmod(inherit.after, username, P.Own, fullPath);
      if owner.result.Err? then Exchange(owner.after, Unhandled(owner.result.error))
      else if irodsUser.None? then Exchange(owner.after, Done(Registration(username, fullPath, irodsUser)))
      else
        var second := P.Chmod(owner.after, irodsUser.value, P.Own, fullPath);
        if second.result.Err? then Exchange(second.after, Unhandled(second.result.error))
        else Exchange(second.after, Done(Registration(username, fullPath, irodsUser)))
  }

  /** The ACL after the grants of registration; `secondary` is the secondary
      owner whose grant went through, if any. */
  function GrantedAcl(acl: map<(string, string), string>, username: string, fullPath: string, secondary: Option<string>): map<(string, string), string>
  {
    var both := acl[(fullPath, "") := Inherit][(fullPath, username) := P.Own];
    if secondary.Some? then both[(fullPath, secondary.value) := P.Own] else both
  }

  // ---------------------------------------------------------------------------
  // Properties of the handlers

  /** `a` and `b` hold the same entries on every key outside `keys`. */
  ghost predicate AgreeExcept(a: map<(string, string), string>, b: map<(string, string), string>, keys: set<(string, string)>)
  {
    forall k :: k !in keys ==> (k in a <==> k in b) && (k in a && k in b ==> a[k] == b[k])
  }

  /** User creation rejects an empty or an existing name with status 400 before
      anything is created; otherwise it creates exactly that user. */
  lemma CreateUserRejectsBeforeCreating(s: Store, username: string)
    ensures var e := CreateUser(s, username);
      && (username == "" || username in s.users ==> e.after == s && Status(e.reply) == 400)
      && (e.reply.Done? <==> username != "" && username !in s.users && username !in s.refused)
      && (e.reply.Done? ==> e.after == s.(users := s.users[username := P.UserType]))
      && (e.reply.Done? ==> e.reply.body == CreatedUser(username, P.UserType, s.zone))
      && (!e.reply.Done? ==> e.after == s)
  {
  }

  /** User deletion removes the user and nothing else: its home and every ACL
      entry stay; a missing user fails with status 500 and changes nothing. */
  lemma DeleteUserOnlyRemovesUser(s: Store, username: string)
    ensures var e := DeleteUser(s, username);
      && (username == "" ==> e == Exchange(s, BadRequest(EmptyUsername)))
      && (username != "" && username !in s.users ==> e == Exchange(s, Unhandled(UserDoesNotExist(username))))
      && (username != "" && username in s.users ==> e.reply == Done(UserName(username)))
      && e.after == s.(users := if username == "" then s.users else s.users - {username})
  {
  }

  /** Deleting a home that is not there changes nothing and still answers with
      the home directory. */
  lemma DeleteHomeAbsentIsNoop(s: Store, username: string)
    requires username != ""
    requires HomeDirectory(s.zone, username) !in s.collections
    ensures DeleteHome(s, username) == Exchange(s, Done(UserHome(username, HomeDirectory(s.zone, username))))
  {
  }

  /** The chmod handler applies its grant exactly when every check passes, and
      then sets that one entry; any failed check answers 400 and changes nothing. */
  lemma ChmodGrantsOnlyWhenValid(s: Store, username: string, path: string, permission: string)
    ensures var e := Chmod(s, username, path, permission);
      && (e.reply.Done? <==>
            && username != "" && path != "" && permission != ""
            && username in s.users && permission in s.vocabulary && P.PathExists(s, path))
      && (!e.reply.Done? ==> e.after == s && Status(e.reply) == 400)
      && (e.reply.Done? ==> e.after == s.(acl := s.acl[(path, username) := permission]))
      && (e.reply.Done? ==> e.reply.body == PermissionChange(username, path, permission))
  {
  }

  /** Registration rejects an empty user name or sub-path before touching the store. */
  lemma RegistrationValidatesFirst(s: Store, username: string, irodsPath: string, irodsUser: Option<string>)
    requires username == "" || irodsPath == ""
    ensures var e := ServiceRegistration(s, username, irodsPath, irodsUser);
      e.after == s && Status(e.reply) == 400
  {
  }

  /** When the user cannot be prepared, registration answers 500 with nothing
      created and no grant applied. */
  lemma RegistrationStopsWhenUserNotReady(s: Store, username: string, irodsPath: string, irodsUser: Option<string>)
    requires username != "" && irodsPath != ""
    ensures var e := ServiceRegistration(s, username, irodsPath, irodsUser);
      && (e.reply.UserNotReady? <==> username !in s.users && username in s.refused)
      && (e.reply.UserNotReady? ==> e.after == s && e.reply == UserNotReady(username, UserRefused(username)))
  {
    if username !in s.users {
      P.EnsureAbsentUserProvisions(s, username);
    }
  }

  /** With the path existing and the user known, the inherit and owner grants
      succeed, and the secondary owner's grant goes through exactly when that
      principal is empty or a user; a refused one ends the request with status
      500 and the first two grants stay. */
  lemma GrantAccessEffect(s: Store, username: string, fullPath: string, irodsUser: Option<string>)
    requires P.PathExists(s, fullPath) && username in s.users
    ensures var e := GrantAccess(s, username, fullPath, irodsUser);
      var accepted := irodsUser.None? || irodsUser.value == "" || irodsUser.value in s.users;
      && e.reply == (if accepted then Done(Registration(username, fullPath, irodsUser))
                     else Unhandled(UnknownPrincipal(irodsUser.value)))
      && e.after == s.(acl := GrantedAcl(s.acl, username, fullPath, if accepted then irodsUser else None))
  {
  }

  /** The grants leave the user owning the path, the empty principal with the
      inherit default unless the secondary owner is the empty principal itself,
      and the secondary owner owning it too; no other entry changes. */
  lemma GrantedAclEntries(acl: map<(string, string), string>, username: string, fullPath: string, secondary: Option<string>)
    requires username != ""
    ensures var g := GrantedAcl(acl, username, fullPath, secondary);
      && (fullPath, username) in g && g[(fullPath, username)] == P.Own
      && (fullPath, "") in g && g[(fullPath, "")] == (if secondary == Some("") then P.Own else Inherit)
      && (secondary.Some? ==> (fullPath, secondary.value) in g && g[(fullPath, secondary.value)] == P.Own)
      && AgreeExcept(g, acl, {(fullPath, ""), (fullPath, username)} +
                             (if secondary.Some? then {(fullPath, secondary.value)} else {}))
  {
  }

  /** Making the same grants again changes nothing. */
  lemma GrantedAclIdempotent(acl: map<(string, string), string>, username: string, fullPath: string, secondary: Option<string>)
    ensures var g := GrantedAcl(acl, username, fullPath, secondary);
      GrantedAcl(g, username, fullPath, secondary) == g
  {
    var g := GrantedAcl(acl, username, fullPath, secondary);
    var h := GrantedAcl(g, username, fullPath, secondary);
    assert h.Keys == g.Keys;
    forall k | k in g
      ensures h[k] == g[k]
    {
    }
  }

  /** Once the user is ready, registration leaves the joined path existing
      (created only if it was absent), the user owning it, the empty principal
      with "inherit" on it (unless the secondary user is itself the empty
      principal), and the secondary user, when there is one and the store
      accepts it as a principal, owning it too, without revoking the user's
      grant. A secondary user the store does not know fails with status 500
      after the first two grants, which stay. No other entry changes. */
  lemma RegistrationProvisions(s: Store, username: string, irodsPath: string, irodsUser: Option<string>)
    requires username != "" && irodsPath != ""
    requires username in s.users || username !in s.refused
    ensures var e := ServiceRegistration(s, username, irodsPath, irodsUser);
      var ensured := P.EnsureUserExists(s, username).after;
      var fullPath := FullPath(s.zone, username, irodsPath);
      && (e.reply.Done? <==>
            irodsUser.None? || irodsUser.value == "" || irodsUser.value == username || irodsUser.value in s.users)
      && (e.reply.Done? ==> e.reply.body == Registration(username, fullPath, irodsUser))
      && (!e.reply.Done? ==> e.reply == Unhandled(UnknownPrincipal(irodsUser.value)))
      && P.PathExists(e.after, fullPath)
      && e.after.collections ==
           (if P.PathExists(ensured, fullPath) then ensured.collections else ensured.collections + {fullPath})
      && e.after.users == ensured.users && e.after.dataObjects == ensured.dataObjects
      && e.after.zone == s.zone && e.after.vocabulary == s.vocabulary && e.after.refused == s.refused
      && (fullPath, username) in e.after.acl && e.after.acl[(fullPath, username)] == P.Own
      && (fullPath, "") in e.after.acl
      && e.after.acl[(fullPath, "")] == (if e.reply.Done? && irodsUser == Some("") then P.Own else Inherit)
      && (e.reply.Done? && irodsUser.Some? ==>
            (fullPath, irodsUser.value) in e.after.acl && e.after.acl[(fullPath, irodsUser.value)] == P.Own)
      && AgreeExcept(e.after.acl, ensured.acl,
           {(fullPath, ""), (fullPath, username)} +
           (if e.reply.Done? && irodsUser.Some? then {(fullPath, irodsUser.value)} else {}))
  {
    var ensured := P.EnsureUserExists(s, username);
    if username !in s.users {
      P.EnsureAbsentUserProvisions(s, username);
    }
    var fullPath := FullPath(s.zone, username, irodsPath);
    var s2 := CreateIfAbsent(ensured.after, fullPath);
    assert username in s2.users;
    GrantAccessEffect(s2, username, fullPath, irodsUser);
    var accepted := irodsUser.None? || irodsUser.value == "" || irodsUser.value in s2.users;
    GrantedAclEntries(s2.acl, username, fullPath, if accepted then irodsUser else None);
  }

  /** Repeating a registration with the same request gives the same reply and
      leaves the store as the first one left it. */
  lemma RegistrationIdempotent(s: Store, username: string, irodsPath: string, irodsUser: Option<string>)
    ensures var e := ServiceRegistration(s, username, irodsPath, irodsUser);
      ServiceRegistration(e.after, username, irodsPath, irodsUser) == e
  {
    if username != "" && irodsPath != "" {
      var ensured := P.EnsureUserExists(s, username);
      P.EnsureUserExistsIdempotent(s, username);
      if ensured.result.Ok? {
        if username !in s.users {
          P.EnsureAbsentUserProvisions(s, username);
        }
        var fullPath := FullPath(s.zone, username, irodsPath);
        var s2 := CreateIfAbsent(ensured.after, fullPath);
        assert username in s2.users;
        GrantAccessEffect(s2, username, fullPath, irodsUser);
        var accepted := irodsUser.None? || irodsUser.value == "" || irodsUser.value in s2.users;
        var t := s2.(acl := GrantedAcl(s2.acl, username, fullPath, if accepted then irodsUser else None));
        P.EnsureExistingUserChangesNothing(t, username);
        assert CreateIfAbsent(t, fullPath) == t;
        GrantAccessEffect(t, username, fullPath, irodsUser);
        GrantedAclIdempotent(s2.acl, username, fullPath, if accepted then irodsUser else None);
      }
    }
  }

  /** Nothing keeps the registered path in the user's home: an absolute sub-path
      naming another user's home registers that home and gives the requesting
      user ownership of it. */
  lemma RegistrationEscapesHome(s: Store, username: string, other: string)
    requires username != "" && username in s.users
    requires other != username && '/' !in other
    ensures var target := HomeDirectory(s.zone, other);
      var e := ServiceRegistration(s, username, target, None);
      && e.reply == Done(Registration(username, target, None))
      && !Beneath(target, HomeDirectory(s.zone, username))
      && (target, username) in e.after.acl && e.after.acl[(target, username)] == P.Own
  {
    HomesNotNested(s.zone, username, other);
  }

  /** Registering twice, then once more with a secondary user: the repeat
      changes nothing, and the third call adds the secondary owner while the
      user keeps ownership and the path keeps its inherit default. */
  lemma SecondaryOwnerKeepsPrimary(s: Store, username: string, irodsPath: string, secondary: string)
    requires username != "" && irodsPath != ""
    requires username in s.users || username !in s.refused
    requires secondary != "" && secondary in s.users
    ensures var first := ServiceRegistration(s, username, irodsPath, None);
      var again := ServiceRegistration(first.after, username, irodsPath, None);
      var third := ServiceRegistration(again.after, username, irodsPath, Some(secondary));
      var fullPath := FullPath(s.zone, username, irodsPath);
      && first.reply.Done? && again == first
      && third.reply == Done(Registration(username, fullPath, Some(secondary)))
      && (fullPath, username) in third.after.acl && third.after.acl[(fullPath, username)] == P.Own
      && (fullPath, secondary) in third.after.acl && third.after.acl[(fullPath, secondary)] == P.Own
      && (fullPath, "") in third.after.acl && third.after.acl[(fullPath, "")] == Inherit
  {
    var first := ServiceRegistration(s, username, irodsPath, None);
    RegistrationProvisions(s, username, irodsPath, None);
    RegistrationIdempotent(s, username, irodsPath, None);
    assert username in first.after.users && secondary in first.after.users;
    RegistrationProvisions(first.after, username, irodsPath, Some(secondary));
  }
}
