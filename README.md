# portal-datastore: identity and access provisioning, modelled in Dafny

portal-datastore is a small HTTP service that provisions users, home
directories and access-control entries on an iRODS data store. This project
models its core: the `DataStoreAPI` object of `ds.py` and the request handlers
of `main.py`. The handlers cover user creation and deletion, home deletion,
`chmod`, and the multi-step service registration workflow.

The iRODS store is not visible, so it is modelled as an abstract, sequential
state (`Irods.Store`). The state holds the configured zone, the users of that
zone with their user types, the collection paths, the data-object paths, an
ACL map from `(path, principal)` to a permission name, the permission
vocabulary, and the set of names the store refuses to create users for.

Layout, following the source:

- `Paths.dfy` (module `Paths`): path normalisation (`iRODSPath`, taken as the
  identity), the home-directory derivation, Python's two-argument
  `os.path.join`, and the subtree relation `Beneath`.
- `Irods.dfy` (module `Irods`): the store, plus the session calls the core
  makes, as pure functions: user get/create/remove, collection create and
  recursive remove, ACL get and set.
- `Provisioning.dfy` (module `Provisioning`): each `DataStoreAPI` method as a
  pure function of the store before the call, with lemmas about it
  (idempotence, frames, the absent-home no-op).
- `DataStore.dfy` (module `DataStore`): the class `DataStoreAPI`. Its fields
  are the store. Its methods change them in place through the session calls,
  in the source's order. Each `DataStoreAPI` method is proved equal to its
  `Provisioning` function; each raw session call is proved equal to its `Irods`
  function.
- `Service.dfy` (module `Service`): each handler of `main.py` as a pure function
  from the store to the new store plus the reply. A reply is a body with status
  200, a 400 with its detail message, a store failure that the exception
  middleware turns into a 500, or registration's own 500. Lemmas give the
  validation order, "a rejected request changes nothing", and the outcome,
  idempotence and layering of registration.
- `Endpoints.dfy` (module `Endpoints`): the handlers as methods over a shared
  `DataStoreAPI` object. Each one is proved to reply and to leave the object as
  its `Service` function says.

The same operation appears at up to four layers, on purpose. A pure function
in `Provisioning` or `Service` is the specification, and the lemmas are proved
about it. A method in `DataStore` or `Endpoints` performs the operation on the
object's fields in the source's order, and is proved equal to that function.
The path helpers of `Paths` take only strings. The `DataStore` methods read the
client's zone from the object.

Modelling decisions:

- The model's store raises in these situations and no others:
  - `users.get` raises for a missing user;
  - `users.create` raises for a taken name (a conflict), or for a name in
    `refused`, which stands for the store's own naming and policy rules;
  - `acls.set` raises when the path is neither a data object nor a collection,
    or when the principal is non-empty and is not a user;
  - `collections.get` raises when the path is not a collection, which is how
    `get_permissions` fails for a path that is neither a data object nor a
    collection.
  Because of these errors, the 500 paths of `create_user`, `delete_user`,
  `path_permissions` and registration can happen in the model.
- Permission names are stored exactly as given. The store's own reading of
  special names such as `null` is not modelled. The inherit default is the
  entry for the empty principal. So a registration whose secondary user is the
  empty string replaces that entry with `own`. `Service.RegistrationProvisions`
  states this case.
- Nothing in the code keeps the joined path inside the home directory:
  `os.path.join` lets an absolute sub-path replace the home. The model follows
  the code. `Service.RegistrationEscapesHome`
  shows that one user can register another user's home and get `own` on it.
  With normalisation taken as the identity, a sub-path with `..` segments stays
  under the home as a string. The client-side `iRODSPath` would resolve it
  outside the home, for example `/z/home/alice/../bob` to bob's home.

## Model

| member | source | states |
|---|---|---|
| `Paths.Clean` | ds.py:23 | `iRODSPath` normalisation, taken as the identity |
| `Paths.HomeDirectory` | ds.py:82-83 | the home is the absolute path `/<zone>/home/<username>`, lies under the zone's home root, and the user name can be read back from it |
| `Paths.HomeDirectoryInjective` | ds.py:82-83 | two users of one zone never share a home directory |
| `Paths.NestedHomeHasSeparator` | ds.py:82-83 | a home strictly inside another user's home belongs to a name that contains a separator |
| `Paths.HomesNotNested` | ds.py:47-50 | the home of a user whose name has no separator never lies in another user's home |
| `Paths.HomeSubtreesDisjoint` | ds.py:47-50 | for two names without separators, no path lies in both users' home subtrees |
| `Paths.Join` | main.py:190 | `os.path.join(a, b)`: an absolute `b` is the result; otherwise `b` is appended to `a`, directly when `a` is empty or ends in a separator and after one separator when it does not |
| `Paths.JoinRelative` | main.py:190 | `os.path.join` of a relative sub-path onto a base without a trailing separator is `base + "/" + sub`, and the result lies under the base |
| `Paths.JoinAbsolute` | main.py:190 | `os.path.join` with an absolute sub-path returns the sub-path, throwing the base away |
| `Paths.JoinStaysInHome` | main.py:188-190 | a relative sub-path joined onto a home (user name non-empty, no separator) is `home + "/" + sub` and lies in that home as a string, before normalisation (a `..` segment is not resolved) |
| `Irods.UsersGet` | ds.py:32 | `users.get` finds a present user with its zone and type; a missing user raises "does not exist" and nothing else |
| `Irods.UsersCreate` | ds.py:53 | `users.create` succeeds exactly when the name is neither taken nor refused, and then adds exactly that user; a taken name is a conflict, a refused one a refusal; a failure changes nothing |
| `Irods.UsersRemove` | ds.py:59 | `remove()` drops exactly that user; the other users keep their types and nothing else changes |
| `Irods.CollectionsCreate` | ds.py:109 | `collections.create` adds exactly that path as a collection and changes nothing else |
| `Irods.AclsSet` | ds.py:66 | `acls.set` fails, changing nothing, when the path does not resolve or the principal is neither empty nor a user; otherwise it sets exactly the `(path, principal)` entry |
| `Irods.CollectionsRemoveTree` | ds.py:50 | a forced recursive remove takes out the collection, every collection and data object beneath it, and their ACL entries; everything else is unchanged |
| `Irods.AclsGet` | ds.py:80 | a path's ACL holds one entry per principal that has an entry on that path, with its permission |
| `Provisioning.PathExists` | ds.py:22-26 | true exactly when the path is a data object or a collection; an absent path gives false, not an error |
| `Provisioning.UserExists` | ds.py:28-37 | true exactly when the user is present; a missing user gives false instead of the lookup's error |
| `Provisioning.GetUser` | ds.py:55-56 | a present user's record (name, zone, type); a missing user fails with "does not exist" |
| `Provisioning.DeleteHome` | ds.py:47-50 | when no collection is at the home directory, the store is unchanged; otherwise the store is the recursive remove of the home, which changes nothing outside the home's subtree; users, zone and vocabulary never change |
| `Provisioning.CreateUser` | ds.py:52-53 | creation succeeds exactly when the name is neither taken nor refused, and then adds exactly that user with type `rodsuser`; a taken name is a conflict; a failure changes nothing |
| `Provisioning.DeleteUser` | ds.py:58-59 | a missing user fails with "does not exist" and changes nothing; a present user is removed and nothing else changes |
| `Provisioning.Chmod` | ds.py:64-66 | one grant succeeds exactly when the path exists and the principal is empty or a user; it sets the `(path, principal)` entry to the permission and no other entry; a failure changes nothing |
| `Provisioning.GetPermissions` | ds.py:71-80 | succeeds exactly when the path exists, and then maps each principal with an entry on the path to that entry's permission; otherwise the collection lookup fails |
| `Provisioning.ListAvailablePermissions` | ds.py:68-69 | the store's permission vocabulary |
| `Provisioning.EnsureUserExists` | ds.py:85-113 | succeeds exactly when the user exists or the name is not refused, and then the user is present; a failure changes nothing; the zone, data objects, vocabulary and refused names never change |
| `Provisioning.DeleteHomeRemovesSubtree` | ds.py:47-50 | when the home collection exists, nothing remains at or beneath it, and every other path keeps its collection and data-object status |
| `Provisioning.DeleteHomeKeepsOtherGrants` | ds.py:47-50 | outside the home the ACL is unchanged: entries keep their permission and no entry appears |
| `Provisioning.DeleteHomeIdempotent` | ds.py:47-50 | deleting a home twice is the same as deleting it once |
| `Provisioning.DeleteHomeKeepsOtherHomes` | ds.py:47-50 | deleting one user's home leaves the collection or data object at every other user's home path (name without separator) |
| `Provisioning.DeleteHomeKeepsOtherSubtrees` | ds.py:47-50 | when neither name has a separator, deleting one user's home leaves every path beneath another user's home, with its ACL entries, as it was |
| `Provisioning.CreateUserTwiceConflicts` | ds.py:52-53 | after a successful creation, creating the same user again fails with a conflict and changes nothing |
| `Provisioning.ChmodIdempotent` | ds.py:64-66 | making the same grant twice in a row is the same as making it once |
| `Provisioning.DeleteUserKeepsHome` | ds.py:58-59 | deleting a user leaves collections, data objects and ACL entries, and so its home, untouched |
| `Provisioning.EnsureExistingUserChangesNothing` | ds.py:99-100 | an existing user is returned as stored and the store is unchanged, even when its home directory is missing |
| `Provisioning.EnsureAbsentUserProvisions` | ds.py:102-113 | for an absent user: failure (a refused name) changes nothing; otherwise the user exists with type `rodsuser`, something exists at its home, a home that was missing is now a collection with `own` for the user as the only new ACL entry, and an existing home is left alone |
| `Provisioning.EnsureUserExistsIdempotent` | ds.py:85-113 | a second call right after the first returns the same result and changes nothing |
| `DataStore.DataStoreAPI.constructor` | ds.py:12-20 | a client bound to the zone of the store it sees |
| `DataStore.DataStoreAPI.LookUpUser` | ds.py:56 | `users.get` finds exactly the users present, with their zone and type |
| `DataStore.DataStoreAPI.AddUser` | ds.py:53 | `users.create` changes the store as `Irods.UsersCreate` says |
| `DataStore.DataStoreAPI.RemoveUser` | ds.py:59 | `remove()` drops exactly that user |
| `DataStore.DataStoreAPI.CreateCollection` | ds.py:109 | `collections.create` adds exactly that collection |
| `DataStore.DataStoreAPI.RemoveCollection` | ds.py:50 | the recursive remove leaves the store as `Irods.CollectionsRemoveTree` says |
| `DataStore.DataStoreAPI.SetAcl` | ds.py:66 | `acls.set` leaves the store and result as `Irods.AclsSet` says |
| `DataStore.DataStoreAPI.PathExists` | ds.py:22-26 | answers whether the path is a data object or a collection, and changes nothing |
| `DataStore.DataStoreAPI.UserExists` | ds.py:28-37 | answers whether the user is present, turning "no such user" into false, and changes nothing |
| `DataStore.DataStoreAPI.DeleteHome` | ds.py:47-50 | the new state is `Provisioning.DeleteHome` of the old one |
| `DataStore.DataStoreAPI.CreateUser` | ds.py:52-53 | the new state and result are `Provisioning.CreateUser` of the old state |
| `DataStore.DataStoreAPI.GetUser` | ds.py:55-56 | returns the user's record in the client's zone, and changes nothing |
| `DataStore.DataStoreAPI.DeleteUser` | ds.py:58-59 | the new state and result are `Provisioning.DeleteUser` of the old state |
| `DataStore.DataStoreAPI.Chmod` | ds.py:64-66 | the new state and result are `Provisioning.Chmod` of the old state |
| `DataStore.DataStoreAPI.ListAvailablePermissions` | ds.py:68-69 | returns the store's vocabulary, and changes nothing |
| `DataStore.DataStoreAPI.GetPermissions` | ds.py:71-80 | succeeds exactly when the path is a data object or a collection, and then returns its ACL |
| `DataStore.DataStoreAPI.HomeDirectory` | ds.py:82-83 | returns `/<zone>/home/<username>` from the zone alone, without reading or changing the store |
| `DataStore.DataStoreAPI.EnsureUserExists` | ds.py:85-113 | runs check, create user, check home, create home, grant `own` in order; the new state and result are `Provisioning.EnsureUserExists` of the old state |
| `Service.Status` | main.py:18-27 | a body replies 200, a handler's rejection 400, and a store failure or an unprepared user 500 |
| `Service.PathExists` | main.py:63-68 | an empty path is a 400; otherwise the reply echoes the path and whether it is a data object or a collection |
| `Service.UserExists` | main.py:71-76 | an empty name is a 400; otherwise the reply echoes the name and whether the user is present |
| `Service.ListAvailablePermissions` | main.py:79-82 | replies with the store's vocabulary |
| `Service.PathPermissions` | main.py:85-90 | succeeds exactly when the path is non-empty and exists, with the path's ACL; an empty path is a 400, a missing one a 500 from the collection lookup |
| `Service.GetHomeDir` | main.py:115-120 | an empty name is a 400; otherwise the reply is the user and `/<zone>/home/<username>` |
| `Service.CreateUser` | main.py:93-104 | the reply is a 400 exactly for an empty or existing name; the only store failure is a refusal; collections and ACL never change |
| `Service.DeleteUser` | main.py:107-112 | succeeds exactly when the name is non-empty and the user is present; collections, data objects and ACL never change |
| `Service.DeleteHome` | main.py:123-128 | an empty name is a 400 with the store unchanged; for a non-empty name, the store is `Provisioning.DeleteHome` of the old one, so nothing outside the home's subtree changes; the reply is the home directory, and a home collection that was there no longer exists; users never change |
| `Service.Chmod` | main.py:149-164 | never ends with a store failure, because the checks rule out every failure of the grant; a 400 changes nothing; only the ACL ever changes |
| `Service.ServiceRegistration` | main.py:173-203 | a 400 exactly for an empty user name or sub-path; a success echoes the user, the joined path and the secondary user; zone, data objects, vocabulary and refused names never change |
| `Service.GrantAccess` | main.py:194-197 | ends in success or a store failure, with a success echoing the request; only the ACL changes |
| `Service.CreateIfAbsent` | main.py:191-192 | afterwards the path exists; a collection is created only when nothing was there |
| `Service.CreateUserRejectsBeforeCreating` | main.py:93-104 | an empty or existing name gets a 400 with the store unchanged; success happens exactly when the name is new and not refused, and it adds exactly that `rodsuser` user and echoes name, type and zone |
| `Service.DeleteUserOnlyRemovesUser` | main.py:107-112 | an empty name gets a 400, a missing user a 500, both with the store unchanged; otherwise only the user is removed |
| `Service.DeleteHomeAbsentIsNoop` | main.py:123-128 | deleting an absent home changes nothing and still replies with the home directory |
| `Service.ChmodGrantsOnlyWhenValid` | main.py:149-164 | the grant is applied exactly when username, path and permission are non-empty, the user exists, the permission is in the vocabulary and the path exists; then exactly that entry is set and the request echoed; otherwise a 400 with the store unchanged |
| `Service.RegistrationValidatesFirst` | main.py:175-178 | an empty user name or sub-path gets a 400 before the store is touched |
| `Service.RegistrationStopsWhenUserNotReady` | main.py:181-186 | registration fails with the "prepare user" 500 exactly when the user is absent and refused, and then no path is created and no grant applied |
| `Service.GrantAccessEffect` | main.py:194-197 | on an existing path with a known user, the inherit and owner grants succeed; the secondary grant succeeds exactly when that principal is empty or a user; otherwise a 500 that keeps the first two grants |
| `Service.GrantedAclEntries` | main.py:194-197 | the grants leave the user with `own`, the empty principal with `inherit` (unless it is itself the secondary owner), the secondary owner with `own`, and every other entry as it was |
| `Service.GrantedAclIdempotent` | main.py:194-197 | making the registration grants again changes nothing |
| `Service.RegistrationProvisions` | main.py:188-203 | once the user is ready: the joined path exists, created only if absent; `inherit` for the empty principal, `own` for the user and, when accepted, `own` for the secondary user without revoking the user's grant; the reply echoes user, full path and secondary user; an unknown secondary user gives a 500 after the first two grants; no other entry changes |
| `Service.RegistrationIdempotent` | main.py:173-203 | repeating a registration with the same request gives the same reply and the same store |
| `Service.RegistrationEscapesHome` | main.py:188-197 | an absolute sub-path naming another user's home is registered as it is, lies outside the requesting user's home, and gives that user `own` on it |
| `Service.SecondaryOwnerKeepsPrimary` | main.py:173-203 | registering twice changes nothing the second time; registering again with a secondary user adds its ownership while the user keeps `own` and the path keeps `inherit` |
| `Endpoints.PathExists` | main.py:63-68 | an empty path gets a 400; otherwise the reply echoes the path and whether it is a data object or a collection |
| `Endpoints.UserExists` | main.py:71-76 | an empty name gets a 400; otherwise the reply echoes the name and whether the user is present |
| `Endpoints.ListAvailablePermissions` | main.py:79-82 | replies with the store's vocabulary |
| `Endpoints.PathPermissions` | main.py:85-90 | succeeds exactly when the path is non-empty and exists, replying with its ACL |
| `Endpoints.GetHomeDir` | main.py:115-120 | an empty name gets a 400; otherwise the reply is the user and `/<zone>/home/<username>` |
| `Endpoints.CreateUser` | main.py:93-104 | the new state and reply are `Service.CreateUser` of the old state |
| `Endpoints.DeleteUser` | main.py:107-112 | the new state and reply are `Service.DeleteUser` of the old state |
| `Endpoints.DeleteHome` | main.py:123-128 | the new state and reply are `Service.DeleteHome` of the old state |
| `Endpoints.Chmod` | main.py:149-164 | runs the six checks in the source's order, then the grant; the new state and reply are `Service.Chmod` of the old state |
| `Endpoints.ServiceRegistration` | main.py:173-203 | runs validation, ensure user, join, exists-then-create and the grants in the source's order; the new state and reply are `Service.ServiceRegistration` of the old state |
| `Endpoints.GrantAccess` | main.py:194-197 | makes the three grants in order, stopping at the first failure; the new state and reply are `Service.GrantAccess` of the old state |

## Left out

- HTTP plumbing is not modelled: the FastAPI app, routing, the exception
  handler and middleware (except that a store failure becomes a 500), JSON and
  pydantic marshalling, the `hello` route, and printing to stderr. Replies
  carry status-400 detail messages; the text of a 500 is not modelled.
- Process configuration is not modelled: reading the environment,
  `sys.exit`, and building the iRODS session (host, port, credentials,
  timeout). The constructor takes the store it sees.
- `list_users_by_username` is not modelled. It runs a query inside the store
  that cannot be seen. Because of Python's `and`, its filter
  `User.name == username and User.zone == self.zone` in effect keeps only the
  zone condition.
- `change_password` and its handler are not modelled: they pass straight
  through to the store and touch none of the modelled state.
- `iRODSPath` normalisation is taken as the identity, so slashes are not
  collapsed and `.` and `..` are not resolved.
- `Provisioning.GetPermissions`: returns the path's ACL entries as a map from
  principal to permission instead of the library's `iRODSAccess` objects.
- `DataStore.DataStoreAPI.CreateCollection`: adds only the named path. The
  parent collections that a recursive create would also make are not
  modelled.
- `Provisioning.DeleteUser`: follows the source, which leaves the user's ACL
  entries and home in place. How the store itself handles a removed user's
  ACL entries is not modelled.
- `Irods.UsersCreate`: adds only the user. The store's own side effects
  of `users.create`, such as making a new user's home collection, are not
  modelled. So in the model a new user's home is missing unless it was
  already there, and `Service.CreateUser` leaves the collections unchanged.
- Store failures other than the ones listed above (transport errors,
  timeouts, rejection of permission names outside the vocabulary) are not
  modelled.
- Concurrency is not modelled. The check-then-act races between concurrent
  requests are out of scope, because the model is sequential.
