/** An abstract, sequential model of the iRODS data store that the provisioning
    logic talks to, and of the session calls it makes: user lookup, creation and
    removal, collection creation and recursive removal, and ACL get and set. */
module Irods {
  import opened Paths

  /** A user record as the store reports it. */
  datatype User = User(name: string, zone: string, userType: string)

  /** The conditions under which a session call raises. */
  datatype DsError =
    | UserDoesNotExist(name: string)
    | UserAlreadyExists(name: string)
    | UserRefused(name: string)
    | CollectionDoesNotExist(path: string)
    | PathDoesNotExist(path: string)
    | UnknownPrincipal(principal: string)

  /** What a call that may raise returns. */
  datatype Result<T> = Ok(value: T) | Err(error: DsError)

  /** The store after a call, with what the call returned. */
  datatype Outcome<T> = Outcome(after: Store, result: Result<T>)

  /** The store's state, for the one zone the client is configured with.
      `users` maps each user name to its user type; `acl` maps a (path, principal)
      pair to a permission name, the empty principal standing for the path-level
      inheritance default; `vocabulary` is the store's declared permission names;
      `refused` holds the names the store declines to create users for (its own
      naming and policy rules, which the client cannot see). */
  datatype Store = Store(
    zone: string,
    users: map<string, string>,
    collections: set<string>,
    dataObjects: set<string>,
    acl: map<(string, string), string>,
    vocabulary: set<string>,
    refused: set<string>)

  /** `p` resolves at the store as a data object or as a collection. */
  predicate Resolves(s: Store, p: string)
  {
    p in s.dataObjects || p in s.collections
  }

  /** session.users.get(name, zone) for the configured zone. */
  function UsersGet(s: Store, name: string): (r: Result<User>)
    ensures r.Ok? <==> name in s.users
    ensures r.Ok? ==> r.value == User(name, s.zone, s.users[name])
    ensures r.Err? ==> r.error == UserDoesNotExist(name)
  {
    if name in s.users then Ok(User(name, s.zone, s.users[name]))
    else Err(UserDoesNotExist(name))
  }

  /** session.users.create(name, userType): raises when the name is taken or refused. */
  function UsersCreate(s: Store, name: string, userType: string): (o: Outcome<User>)
    ensures o.result.Ok? <==> name !in s.users && name !in s.refused
    ensures o.result.Ok? ==> o.after == s.(users := s.users[name := userType])
    ensures o.result.Ok? ==> o.result.value == User(name, s.zone, userType)
    ensures name in s.users ==> o.result == Err(UserAlreadyExists(name))
    ensures name !in s.users && name in s.refused ==> o.result == Err(UserRefused(name))
    ensures o.result.Err? ==> o.after == s
  {
    if name in s.users then Outcome(s, Err(UserAlreadyExists(name)))
    else if name in s.refused then Outcome(s, Err(UserRefused(name)))
    else Outcome(s.(users := s.users[name := userType]), Ok(User(name, s.zone, userType)))
  }

  /** iRODSUser.remove() on a user that was found. */
  function UsersRemove(s: Store, name: string): (t: Store)
    ensures t == s.(users := t.users)
    ensures forall n :: n in t.users <==> n in s.users && n != name
    ensures forall n :: n in t.users ==> t.users[n] == s.users[n]
  {
    s.(users := s.users - {name})
  }

  /** session.collections.create(path). */
  function CollectionsCreate(s: Store, path: string): (t: Store)
    ensures t == s.(collections := t.collections)
    ensures forall p :: p in t.collections <==> p in s.collections || p == path
  {
    s.(collections := s.collections + {path})
  }

  /** session.collections.remove(root, force=True, recurse=True): the collection,
      every collection and data object beneath it, and their ACL entries go;
      nothing else changes. */
  function CollectionsRemoveTree(s: Store, root: string): (t: Store)
    ensures t.zone == s.zone && t.users == s.users
    ensures t.vocabulary == s.vocabulary && t.refused == s.refused
    ensures forall p :: p in t.collections <==> p in s.collections && !Beneath(p, root)
    ensures forall p :: p in t.dataObjects <==> p in s.dataObjects && !Beneath(p, root)
    ensures forall k :: k in t.acl <==> k in s.acl && !Beneath(k.0, root)
    ensures forall k :: k in t.acl ==> t.acl[k] == s.acl[k]
  {
    var collections := set p | p in s.collections && !Beneath(p, root);
    var dataObjects := set p | p in s.dataObjects && !Beneath(p, root);
    var acl := map k | k in s.acl && !Beneath(k.0, root) :: s.acl[k];
    s.(collections := collections, dataObjects := dataObjects, acl := acl)
  }

  /** session.acls.set(iRODSAccess(permission, path, principal)): the store
      rejects a path that does not resolve and a named principal that is not a
      user; otherwise the entry for (path, principal) becomes `permission`. */
  function AclsSet(s: Store, principal: string, permission: string, path: string): (o: Outcome<()>)
    ensures o.result.Ok? <==> Resolves(s, path) && (principal == "" || principal in s.users)
    ensures !Resolves(s, path) ==> o.result == Err(PathDoesNotExist(path))
    ensures Resolves(s, path) && principal != "" && principal !in s.users ==>
              o.result == Err(UnknownPrincipal(principal))
    ensures o.result.Ok? ==> o.after == s.(acl := o.after.acl)
    ensures o.result.Ok? ==> (path, principal) in o.after.acl && o.after.acl[(path, principal)] == permission
    ensures o.result.Ok? ==> forall k :: k != (path, principal) ==>
              (k in o.after.acl <==> k in s.acl) && (k in s.acl ==> o.after.acl[k] == s.acl[k])
    ensures o.result.Err? ==> o.after == s
  {
    if !Resolves(s, path) then Outcome(s, Err(PathDoesNotExist(path)))
    else if principal != "" && principal !in s.users then Outcome(s, Err(UnknownPrincipal(principal)))
    else Outcome(s.(acl := s.acl[(path, principal) := permission]), Ok(()))
  }

  /** session.acls.get(obj): the ACL entries of one path, by principal. */
  function AclsGet(s: Store, path: string): (grants: map<string, string>)
    ensures forall q :: q in grants <==> (path, q) in s.acl
    ensures forall q :: q in grants ==> grants[q] == s.acl[(path, q)]
  {
    map k | k in s.acl && k.0 == path :: k.1 := s.acl[k]
  }
}
