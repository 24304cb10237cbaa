/** The data store API object: a client bound to one zone whose methods read and
    change the store in place, one session call at a time. Its fields are the
    store's state; every method is proved to do what the matching function of
    Provisioning (or, for a raw session call, of Irods) says. */
module DataStore {
  import opened Paths
  import opened Irods
  import P = Provisioning

  class DataStoreAPI {
    const zone: string
    var users: map<string, string>
    var collections: set<string>
    var dataObjects: set<string>
    var acl: map<(string, string), string>
    var vocabulary: set<string>
    var refused: set<string>

    /** The store as the fields hold it. */
    function State(): Store
      reads this
    {
      Store(zone, users, collections, dataObjects, acl, vocabulary, refused)
    }

    /** A client of the zone of `backend`, seeing `backend` as it stands. */
    constructor (backend: Store)
      ensures State() == backend
    {
      zone := backend.zone;
      users := backend.users;
      collections := backend.collections;
      dataObjects := backend.dataObjects;
      acl := backend.acl;
      vocabulary := backend.vocabulary;
      refused := backend.refused;
    }

    // -------------------------------------------------------------------------
    // Session calls

    /** session.users.get(username, zone). */
    method LookUpUser(username: string) returns (r: Result<User>)
      ensures r == UsersGet(State(), username)
      ensures r.Ok? <==> username in users
    {
      if username in users {
        r := Ok(User(username, zone, users[username]));
      } else {
        r := Err(UserDoesNotExist(username));
      }
    }

    /** session.users.create(username, userType). */
    method AddUser(username: string, userType: string) returns (r: Result<User>)
      modifies this
      ensures Outcome(State(), r) == UsersCreate(old(State()), username, userType)
    {
      if username in users {
        r := Err(UserAlreadyExists(username));
      } else if username in refused {
        r := Err(UserRefused(username));
      } else {
        users := users[username := userType];
        r := Ok(User(username, zone, userType));
      }
    }

    /** iRODSUser.remove(). */
    method RemoveUser(username: string)
      modifies this
      ensures State() == UsersRemove(old(State()), username)
    {
      users := users - {username};
    }

    /** session.collections.create(path). */
    method CreateCollection(path: string)
      modifies this
      ensures State() == CollectionsCreate(old(State()), path)
    {
      collections := collections + {path};
    }

    /** session.collections.remove(root, force=True, recurse=True). */
    method RemoveCollection(root: string)
      modifies this
      ensures State() == CollectionsRemoveTree(old(State()), root)
    {
      collections := set p | p in collections && !Beneath(p, root);
      dataObjects := set p | p in dataObjects && !Beneath(p, root);
      acl := map k | k in acl && !Beneath(k.0, root) :: acl[k];
    }

    /** session.acls.set(iRODSAccess(permission, path, principal)). */
    method SetAcl(principal: string, permission: string, path: string) returns (r: Result<()>)
      modifies this
      ensures Outcome(State(), r) == AclsSet(old(State()), principal, permission, path)
    {
      if path !in dataObjects && path !in collections {
        r := Err(PathDoesNotExist(path));
      } else if principal != "" && principal !in users {
        r := Err(UnknownPrincipal(principal));
      } else {
        acl := acl[(path, principal) := permission];
        r := Ok(());
      }
    }

    // -------------------------------------------------------------------------
    // DataStoreAPI

    /** path_exists: a data object or a collection at the normalised path. */
    method PathExists(path: string) returns (found: bool)
      ensures found <==> (path in dataObjects || path in collections)
      ensures found == P.PathExists(State(), path)
    {
      var fixed := Clean(path);
      found := fixed in dataObjects || fixed in collections;
    }

    /** user_exists: a failed lookup of a missing user answers false. */
    method UserExists(username: string) returns (found: bool)
      ensures found <==> username in users
      ensures found == P.UserExists(State(), username)
    {
      var user := LookUpUser(username);
      match user
      case Ok(_) => found := true;
      case Err(_) => found := false;
    }

    /** delete_home: remove the home collection recursively if it is there. */
    method DeleteHome(username: string)
      modifies this
      ensures State() == P.DeleteHome(old(State()), username)
    {
      var home := HomeDirectory(username);
      if home in collections {
        RemoveCollection(home);
      }
    }

    /** create_user: a new user with the fixed user type, unchecked. */
    method CreateUser(username: string) returns (r: Result<User>)
      modifies this
      ensures Outcome(State(), r) == P.CreateUser(old(State()), username)
    {
      r := AddUser(username, P.UserType);
    }

    /** get_user. */
    method GetUser(username: string) returns (r: Result<User>)
      ensures r == P.GetUser(State(), username)
      ensures r.Ok? ==> r.value.name == username && r.value.zone == zone
    {
      r := LookUpUser(username);
    }

    /** delete_user: look the user up, then remove it. */
    method DeleteUser(username: string) returns (r: Result<()>)
      modifies this
      ensures Outcome(State(), r) == P.DeleteUser(old(State()), username)
    {
      var user := LookUpUser(username);
      if user.Err? {
        return Err(user.error);
      }
      RemoveUser(username);
      r := Ok(());
    }

    /** chmod: one ACL grant on the normalised path. */
    method Chmod(username: string, permission: string, path: string) returns (r: Result<()>)
      modifies this
      ensures Outcome(State(), r) == P.Chmod(old(State()), username, permission, path)
    {
      r := SetAcl(username, permission, Clean(path));
    }

    /** list_available_permissions: the store's vocabulary. */
    method ListAvailablePermissions() returns (names: set<string>)
      ensures names == vocabulary
      ensures names == P.ListAvailablePermissions(State())
    {
      names := vocabulary;
    }

    /** get_permissions: data object first, then collection. */
    method GetPermissions(path: string) returns (r: Result<map<string, string>>)
      ensures r == P.GetPermissions(State(), path)
      ensures r.Ok? <==> (path in dataObjects || path in collections)
    {
      var clean := Clean(path);
      if clean in dataObjects {
        r := Ok(AclsGet(State(), clean));
      } else if clean in collections {
        r := Ok(AclsGet(State(), clean));
      } else {
        r := Err(CollectionDoesNotExist(path));
      }
    }

    /** home_directory: derived from the zone alone, without asking the store. */
    method HomeDirectory(username: string) returns (home: string)
      ensures home == Paths.HomeDirectory(zone, username)
      ensures home == "/" + zone + "/home/" + username
    {
      home := Clean("/" + zone + "/home/" + username);
    }

    /** ensure_user_exists: check, create the user, check the home, create it and
        grant the user ownership of it. */
    method EnsureUserExists(username: string) returns (r: Result<User>)
      modifies this
      ensures Outcome(State(), r) == P.EnsureUserExists(old(State()), username)
    {
      var found := UserExists(username);
      if found {
        r := GetUser(username);
        return;
      }
      r := CreateUser(username);
      if r.Err? {
        return;
      }
      var home := HomeDirectory(username);
      var homeExists := PathExists(home);
      if !homeExists {
        CreateCollection(home);
        var grant := Chmod(username, P.Own, home);
        if grant.Err? {
          r := Err(grant.error);
        }
      }
    }
  }
}
