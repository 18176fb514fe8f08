/** The records the application stores and passes around (users, drug information, verification
    records, SOS events, hospitals). Timestamps are milliseconds since the epoch. */
module Types {
  import opened Common

  type Timestamp = int

  const DayMs: int := 86400000

  /** Midnight (UTC) of the day containing `t`: the date part of `toISOString()`. */
  function DateOf(t: Timestamp): (d: Timestamp)
    ensures d <= t < d + DayMs && d % DayMs == 0
  {
    t - t % DayMs
  }

  datatype Role = UserRole | AdminRole

  datatype EmergencyContact = EmergencyContact(
    name: string,
    phone: string,
    relationship: string,
    id: Option<string>)

  /** A user's last known position; its coordinates only matter to the hospital search, which is
      an input of the model. */
  datatype Location = Location(lat: real, lng: real)

  datatype User = User(
    id: string,
    email: string,
    passwordHash: string,
    name: string,
    role: Role,
    emergencyContacts: seq<EmergencyContact>,
    location: Option<Location>,
    createdAt: Option<Timestamp>)

  /** The optional drug attributes shared by every verification source. */
  datatype DrugInfo = DrugInfo(
    name: Option<string>,
    manufacturer: Option<string>,
    status: Option<string>,
    expiryDate: Option<Timestamp>,
    batchNumber: Option<string>)

  /** The final classification of a verification. */
  datatype Verdict = Verified | Unverified | Expired | Invalid

  /** One stored drug verification (the `drug_verifications` collection). */
  datatype VerificationRecord = VerificationRecord(
    userId: string,
    nafdacCode: Option<string>,
    verificationMethod: string,
    drugInfo: DrugInfo,
    result: Verdict,
    createdAt: Timestamp)

  datatype SosStatus = Active | Resolved

  /** One emergency session (the `sos_events` collection); `id` is its position in the store. */
  datatype SosEvent = SosEvent(
    id: nat,
    userId: string,
    activatedAt: Timestamp,
    status: SosStatus,
    lastActivityCheck: Option<Timestamp>,
    helpRequestedAt: Option<Timestamp>,
    emergencyContactsNotified: seq<string>,
    hospitalsNotified: seq<string>,
    resolvedAt: Option<Timestamp>)

  datatype Hospital = Hospital(name: string, placeId: Option<string>)

  // ---------------------------------------------------------------------------
  // The users collection
  // ---------------------------------------------------------------------------

  /** `findOne({ email })`: the first user with that email, whatever the role. */
  function UserByEmail(users: seq<User>, email: string): (r: Option<User>)
    ensures r.Some? ==> r.value in users && r.value.email == email
    ensures r.None? <==> forall j :: 0 <= j < |users| ==> users[j].email != email
  {
    match FirstIndex(users, (u: User) => u.email == email)
    case None => None
    case Some(i) => Some(users[i])
  }

  /** `countDocuments({ role: 'admin' })` */
  function AdminCount(users: seq<User>): (n: nat)
    ensures n <= |users|
  {
    CountWhere(users, (u: User) => u.role == AdminRole)
  }

  /** There are admins exactly when some user has the admin role. */
  lemma {:induction false} AdminCountPositive(users: seq<User>)
    ensures AdminCount(users) > 0 <==> exists j :: 0 <= j < |users| && users[j].role == AdminRole
  {
    if |users| > 0 {
      var init := users[..|users| - 1];
      AdminCountPositive(init);
      if exists j :: 0 <= j < |init| && init[j].role == AdminRole {
        var j :| 0 <= j < |init| && init[j].role == AdminRole;
        assert users[j] == init[j];
      }
      if exists j :: 0 <= j < |users| && users[j].role == AdminRole {
        var j :| 0 <= j < |users| && users[j].role == AdminRole;
        if j < |init| { assert init[j] == users[j]; }
      }
    }
  }

  /** `createAdminUser`: an admin with no emergency contacts, created now. */
  function NewAdminUser(id: string, email: string, passwordHash: string, name: string, now: Timestamp): (u: User)
    ensures u.role == AdminRole && u.email == email && u.name == name && u.passwordHash == passwordHash
    ensures u.emergencyContacts == [] && u.createdAt == Some(now)
  {
    User(id, email, passwordHash, name, AdminRole, [], None, Some(now))
  }

  /** After inserting a new admin, the admins are one more, and the email is found. */
  lemma InsertAdminEffect(users: seq<User>, id: string, email: string, passwordHash: string, name: string, now: Timestamp)
    ensures AdminCount(users + [NewAdminUser(id, email, passwordHash, name, now)]) == AdminCount(users) + 1
    ensures UserByEmail(users + [NewAdminUser(id, email, passwordHash, name, now)], email).Some?
  {
    var u := NewAdminUser(id, email, passwordHash, name, now);
    CountWhereAppend(users, u, (u: User) => u.role == AdminRole);
    assert (users + [u])[|users|].email == email;
  }

  // ---------------------------------------------------------------------------
  // Default admin settings
  // ---------------------------------------------------------------------------

  const DefaultAdminEmail := "admin@delphi.health"
  const DefaultAdminPassword := "admin123"
  const DefaultAdminName := "Default Admin"

  /** The default admin's email, password and name. */
  datatype AdminSettings = AdminSettings(email: string, password: string, name: string)

  /** `process.env.DEFAULT_ADMIN_X || default` for the three settings: an unset or empty variable
      gives the built-in default. */
  function AdminSettingsFrom(env: Env): (s: AdminSettings)
    ensures s.email == if Truthy(EnvGet(env, "DEFAULT_ADMIN_EMAIL")) then env["DEFAULT_ADMIN_EMAIL"] else DefaultAdminEmail
    ensures s.password == if Truthy(EnvGet(env, "DEFAULT_ADMIN_PASSWORD")) then env["DEFAULT_ADMIN_PASSWORD"] else DefaultAdminPassword
    ensures s.name == if Truthy(EnvGet(env, "DEFAULT_ADMIN_NAME")) then env["DEFAULT_ADMIN_NAME"] else DefaultAdminName
    ensures s.email != "" && s.password != "" && s.name != ""
  {
    AdminSettings(OrElse(EnvGet(env, "DEFAULT_ADMIN_EMAIL"), DefaultAdminEmail),
                  OrElse(EnvGet(env, "DEFAULT_ADMIN_PASSWORD"), DefaultAdminPassword),
                  OrElse(EnvGet(env, "DEFAULT_ADMIN_NAME"), DefaultAdminName))
  }
}
