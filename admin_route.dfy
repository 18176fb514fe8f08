/** `POST /api/admin/create-default-admin`: the first-run endpoint that creates the default admin
    only while no admin exists. The environment settings, the password hash and database failures
    are inputs. */
module AdminRoute {
  import opened Common
  import opened Types

  datatype Decision = ReportExists | Refuse | Create

  /** The decision table: with admins present, report the default admin if a user has its email
      and refuse otherwise; with none, report an existing user with the email or create. */
  function Decide(users: seq<User>, email: string): (d: Decision)
    ensures d == Create <==> AdminCount(users) == 0 && UserByEmail(users, email).None?
    ensures d == Refuse <==> AdminCount(users) > 0 && UserByEmail(users, email).None?
    ensures d == ReportExists <==> UserByEmail(users, email).Some?
  {
    if AdminCount(users) > 0 then
      if UserByEmail(users, email).Some? then ReportExists else Refuse
    else if UserByEmail(users, email).Some? then ReportExists
    else Create
  }

  datatype Response =
    | Exists(email: string)                  // 200, "Default admin user already exists"
    | Forbidden                              // 403, "Admin users already exist. …"
    | CreatedAdmin(email: string, name: string)   // 201, "Default admin user created successfully"
    | Failed                                 // 500, "Failed to create default admin user"

  function Status(r: Response): int {
    match r
    case Exists(_) => 200
    case Forbidden => 403
    case CreatedAdmin(_, _) => 201
    case Failed => 500
  }

  /** A route that creates an admin makes every later request report it. */
  lemma {:induction false} CreatesAtMostOnce(users: seq<User>, s: AdminSettings, id: string, passwordHash: string, now: Timestamp)
    requires Decide(users, s.email) == Create
    ensures Decide(users + [NewAdminUser(id, s.email, passwordHash, s.name, now)], s.email) == ReportExists
  {
    InsertAdminEffect(users, id, s.email, passwordHash, s.name, now);
  }

  /** Once any admin exists, the route never creates one. */
  lemma NoCreationOnceAnAdminExists(users: seq<User>, email: string, j: nat)
    requires j < |users| && users[j].role == AdminRole
    ensures Decide(users, email) != Create
  {
    AdminCountPositive(users);
  }

  /** The existence check matches a user of any role: a regular user who registered with the
      default email stops the default admin from ever being created. */
  lemma RegularUserWithDefaultEmailBlocksSetup(other: seq<User>, u: User, email: string)
    requires u.email == email && u.role == UserRole
    ensures Decide(other + [u], email) == ReportExists
  {
    assert (other + [u])[|other|].email == email;
  }

  class UsersCollection {
    var users: seq<User>

    constructor (initial: seq<User>)
      ensures users == initial
    {
      users := initial;
    }

    /** `POST`. `dbFails` stands for a database call that throws; `passwordHash` is the bcrypt
        hash of the default password; `newId` is the id the database assigns. */
    method Post(env: Env, newId: string, passwordHash: string, now: Timestamp, dbFails: bool) returns (resp: Response)
      modifies this
      ensures dbFails ==> resp == Failed && users == old(users)
      ensures !dbFails ==> match Decide(old(users), AdminSettingsFrom(env).email)
        case ReportExists => resp == Exists(AdminSettingsFrom(env).email) && users == old(users)
        case Refuse => resp == Forbidden && users == old(users)
        case Create =>
          resp == CreatedAdmin(AdminSettingsFrom(env).email, AdminSettingsFrom(env).name)
          && users == old(users) + [NewAdminUser(newId, AdminSettingsFrom(env).email, passwordHash, AdminSettingsFrom(env).name, now)]
      ensures AdminCount(users) <= AdminCount(old(users)) + 1
      ensures AdminCount(old(users)) > 0 ==> users == old(users)
    {
      if dbFails {
        return Failed;
      }
      var settings := AdminSettingsFrom(env);
      var adminCount := AdminCount(users);
      if adminCount > 0 {
        var existing := UserByEmail(users, settings.email);
        if existing.Some? {
          return Exists(settings.email);
        }
        return Forbidden;
      }
      var existing := UserByEmail(users, settings.email);
      if existing.Some? {
        return Exists(settings.email);
      }
      var admin := NewAdminUser(newId, settings.email, passwordHash, settings.name, now);
      InsertAdminEffect(users, newId, settings.email, passwordHash, settings.name, now);
      users := users + [admin];
      resp := CreatedAdmin(admin.email, admin.name);
    }
  }
}
