/** The request handlers, run against the shared data store API object: each
    performs the checks and calls of its handler in the same order, and is proved
    to reply and to leave the store as the matching function of Service says. */
module Endpoints {
  import opened Paths
  import opened Irods
  import opened Service
  import P = Provisioning
  import opened DataStore

  /** GET /path/exists */
  method PathExists(server: DataStoreAPI, path: string) returns (reply: Reply)
    ensures reply == Service.PathExists(server.State(), path)
    ensures reply.Done? <==> path != ""
    ensures reply.Done? ==> (reply.body.present <==> path in server.dataObjects || path in server.collections)
  {
    if path == "" {
      return BadRequest(PathNotSet);
    }
    var found := server.PathExists(path);
    reply := Done(PathStatus(path, found));
  }

  /** GET /users/{username}/exists */
  method UserExists(server: DataStoreAPI, username: string) returns (reply: Reply)
    ensures reply == Service.UserExists(server.State(), username)
    ensures reply.Done? <==> username != ""
    ensures reply.Done? ==> (reply.body.present <==> username in server.users)
  {
    if username == "" {
      return BadRequest(EmptyUsername);
    }
    var found := server.UserExists(username);
    reply := Done(UserStatus(username, found));
  }

  /** GET /permissions/available */
  method ListAvailablePermissions(server: DataStoreAPI) returns (reply: Reply)
    ensures reply == Service.ListAvailablePermissions(server.State())
    ensures reply == Done(Permissions(server.vocabulary))
  {
    var names := server.ListAvailablePermissions();
    reply := Done(Permissions(names));
  }

  /** GET /path/permissions */
  method PathPermissions(server: DataStoreAPI, path: string) returns (reply: Reply)
    ensures reply == Service.PathPermissions(server.State(), path)
    ensures reply.Done? <==> path != "" && (path in server.dataObjects || path in server.collections)
  {
    if path == "" {
      return BadRequest(PathNotSet);
    }
    var perms := server.GetPermissions(path);
    match perms
    case Ok(grants) => reply := Done(PathGrants(grants));
    case Err(e) => reply := Unhandled(e);
  }

  /** GET /users/{username}/home */
  method GetHomeDir(server: DataStoreAPI, username: string) returns (reply: Reply)
    ensures reply == Service.GetHomeDir(server.State(), username)
    ensures username != "" ==> reply == Done(UserHome(username, "/" + server.zone + "/home/" + username))
  {
    if username == "" {
      return BadRequest(EmptyUsername);
    }
    var home := server.HomeDirectory(username);
    reply := Done(UserHome(username, home));
  }

  /** POST /users/{username} */
  method CreateUser(server: DataStoreAPI, username: string) returns (reply: Reply)
    modifies server
    ensures Exchange(server.State(), reply) == Service.CreateUser(old(server.State()), username)
  {
    if username == "" {
      return BadRequest(EmptyUsername);
    }
    var taken := server.UserExists(username);
    if taken {
      return BadRequest("user exists");
    }
    var created := server.CreateUser(username);
    match created
    case Ok(user) => reply := Done(CreatedUser(user.name, user.userType, user.zone));
    case Err(e) => reply := Unhandled(e);
  }

  /** DELETE /users/{username} */
  method DeleteUser(server: DataStoreAPI, username: string) returns (reply: Reply)
    modifies server
    ensures Exchange(server.State(), reply) == Service.DeleteUser(old(server.State()), username)
  {
    if username == "" {
      return BadRequest(EmptyUsername);
    }
    var deleted := server.DeleteUser(username);
    match deleted
    case Ok(_) => reply := Done(UserName(username));
    case Err(e) => reply := Unhandled(e);
  }

  /** DELETE /users/{username}/home */
  method DeleteHome(server: DataStoreAPI, username: string) returns (reply: Reply)
    modifies server
    ensures Exchange(server.State(), reply) == Service.DeleteHome(old(server.State()), username)
  {
    if username == "" {
      return BadRequest(EmptyUsername);
    }
    server.DeleteHome(username);
    var home := server.HomeDirectory(username);
    reply := Done(UserHome(username, home));
  }

  /** POST /path/chmod */
  method Chmod(server: DataStoreAPI, username: string, path: string, permission: string) returns (reply: Reply)
    modifies server
    ensures Exchange(server.State(), reply) == Service.Chmod(old(server.State()), username, path, permission)
  {
    if username == "" {
      return BadRequest("username must be set in request body");
    }
    if path == "" {
      return BadRequest("path must be set in request body");
    }
    if permission == "" {
      return BadRequest("permission must be set in request body");
    }
    var known := server.UserExists(username);
    if !known {
      return BadRequest("username " + username + " does not exist");
    }
    var names := server.ListAvailablePermissions();
    if permission !in names {
      return BadRequest("permission " + permission + " does not exist");
    }
    var found := server.PathExists(path);
    if !found {
      return BadRequest("path " + path + " does not exist");
    }
    var grant := server.Chmod(username, permission, path);
    match grant
    case Ok(_) => reply := Done(PermissionChange(username, path, permission));
    case Err(e) => reply := Unhandled(e);
  }

  /** POST /services/register */
  method ServiceRegistration(server: DataStoreAPI, username: string, irodsPath: string, irodsUser: Option<string>)
    returns (reply: Reply)
    modifies server
    ensures Exchange(server.State(), reply) == Service.ServiceRegistration(old(server.State()), username, irodsPath, irodsUser)
  {
    if username == "" {
      return BadRequest(EmptyUsername);
    }
    if irodsPath == "" {
      return BadRequest("irods_path must not be empty");
    }
    var user := server.EnsureUserExists(username);
    if user.Err? {
      return UserNotReady(username, user.error);
    }
    var home := server.HomeDirectory(username);
    var fullPath := Join(home, irodsPath);
    var found := server.PathExists(fullPath);
    if !found {
      server.CreateCollection(fullPath);
    }
    reply := GrantAccess(server, username, fullPath, irodsUser);
  }

  /** The grants of registration, in order; the first failing grant ends the
      request. */
  method GrantAccess(server: DataStoreAPI, username: string, fullPath: string, irodsUser: Option<string>)
    returns (reply: Reply)
    modifies server
    ensures Exchange(server.State(), reply) == Service.GrantAccess(old(server.State()), username, fullPath, irodsUser)
  {
    var grant := server.Chmod("", Inherit, fullPath);
    if grant.Err? {
      return Unhandled(grant.error);
    }
    grant := server.Chmod(username, P.Own, fullPath);
    if grant.Err? {
      return Unhandled(grant.error);
    }
    if irodsUser.Some? {
      grant := server.Chmod(irodsUser.value, P.Own, fullPath);
      if grant.Err? {
        return Unhandled(grant.error);
      }
    }
    reply := Done(Registration(username, fullPath, irodsUser));
  }
}
