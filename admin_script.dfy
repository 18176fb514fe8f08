/** The setup script that creates the default admin user: it loads `KEY=value` lines from
    `.env.local` and then `.env` into the process environment without overriding what is already
    set, connects to the database once, and inserts the default admin unless a user with its email
    exists. Reading the files, hashing the password and the database itself are inputs. */
module AdminScript {
  import opened Common
  import opened Types

  const MongoUriVar := "MONGODB_URI"

  // ---------------------------------------------------------------------------
  // The environment file
  // ---------------------------------------------------------------------------

  predicate IsQuote(c: char) {
    c == '"' || c == '\''
  }

  /** `.replace(/^["']|["']$/g, '')`: one leading quote, then one trailing quote of what remains. */
  function StripQuotes(v: string): (r: string)
    ensures |r| <= |v|
    ensures |v| >= 2 && IsQuote(v[0]) && IsQuote(v[|v| - 1]) ==> r == v[1..|v| - 1]
    ensures (v == "" || !IsQuote(v[0])) && (v == "" || !IsQuote(v[|v| - 1])) ==> r == v
    ensures |v| >= 1 && IsQuote(v[0]) && (|v| == 1 || !IsQuote(v[|v| - 1])) ==> r == v[1..]
    ensures |v| >= 1 && !IsQuote(v[0]) && IsQuote(v[|v| - 1]) ==> r == v[..|v| - 1]
  {
    var afterLeading := if |v| > 0 && IsQuote(v[0]) then v[1..] else v;
    if |afterLeading| > 0 && IsQuote(afterLeading[|afterLeading| - 1])
    then afterLeading[..|afterLeading| - 1]
    else afterLeading
  }

  /** One line of an env file: blank lines, comments and lines without `=` or without a key give
      nothing; otherwise the trimmed key and the trimmed, unquoted text after the first `=`. */
  function ParseLine(line: string): (r: Option<(string, string)>)
    ensures Trim(line) == "" || StartsWith(Trim(line), "#") ==> r.None?
    ensures '=' !in Trim(line) ==> r.None?
    ensures Trim(line) != "" && Trim(line)[0] == '=' ==> r.None?
  {
    var t := Trim(line);
    if t == "" || StartsWith(t, "#") then None
    else
      var parts := Split(t, '=');
      if parts[0] == "" || |parts| < 2 then None
      else
        SplitNoSeparatorContrapositive(t);
        Some((Trim(parts[0]), StripQuotes(Trim(Join(parts[1..], '=')))))
  }

  lemma SplitNoSeparatorContrapositive(t: string)
    ensures '=' !in t ==> |Split(t, '=')| == 1
  {
    if '=' !in t { SplitNoSeparator(t, '='); }
  }

  /** Whitespace around a line changes nothing: the line is trimmed before it is parsed, so an
      indented `  KEY=value` parses as `KEY=value` does. */
  lemma ParseLineIgnoresSurroundingSpace(line: string)
    ensures ParseLine(line) == ParseLine(Trim(line))
  {
    TrimIdempotent(line);
  }

  /** `if (!process.env[key]) process.env[key] = value`: a key already set to a non-empty value
      is kept. */
  function ApplyLine(env: Env, line: string): Env
  {
    match ParseLine(line)
    case None => env
    case Some((k, v)) => if Truthy(EnvGet(env, k)) then env else env[k := v]
  }

  /** Proof step: `ApplyLine` unfolded into its two cases. */
  lemma ApplyLineUnfold(env: Env, line: string)
    ensures ParseLine(line).None? ==> ApplyLine(env, line) == env
    ensures ParseLine(line).Some? ==>
      (ApplyLine(env, line) ==
        if Truthy(EnvGet(env, ParseLine(line).value.0)) then env
        else env[ParseLine(line).value.0 := ParseLine(line).value.1])
  {
  }

  /** A line `key=value` sets the trimmed key to the trimmed, unquoted value when the key is unset
      or empty, and changes nothing when it holds a non-empty value. */
  lemma AssignmentLine(env: Env, key: string, value: string)
    requires key != "" && '=' !in key && !IsWhitespace(key[0]) && key[0] != '#'
    ensures !Truthy(EnvGet(env, Trim(key))) ==>
      ApplyLine(env, key + "=" + value) == env[Trim(key) := StripQuotes(Trim(value))]
    ensures Truthy(EnvGet(env, Trim(key))) ==> ApplyLine(env, key + "=" + value) == env
  {
    var line := key + "=" + value;
    ValueKeepsLaterEquals(key, value);
    ApplyLineUnfold(env, line);
  }

  /** The body of the `forEach` callback on the environment alone: parse the line, then set the
      key unless it already holds a non-empty value. */
  method NextEnv(env: Env, line: string) returns (next: Env)
    ensures next == ApplyLine(env, line)
  {
    ApplyLineUnfold(env, line);
    next := env;
    var parsed := ParseLine(line);
    if parsed.Some? {
      var key := parsed.value.0;
      if !Truthy(EnvGet(next, key)) {
        next := next[key := parsed.value.1];
      }
    }
  }

  function ApplyLines(env: Env, lines: seq<string>): Env {
    if |lines| == 0 then env else ApplyLine(ApplyLines(env, lines[..|lines| - 1]), lines[|lines| - 1])
  }

  /** Folding one more line applies that line to the environment folded so far. */
  lemma ApplyLinesStep(env: Env, lines: seq<string>, i: nat)
    requires i < |lines|
    ensures ApplyLines(env, lines[..i + 1]) == ApplyLine(ApplyLines(env, lines[..i]), lines[i])
  {
    assert lines[..i + 1][..i] == lines[..i];
  }

  /** `loadEnvFile`: a file that cannot be read changes nothing. */
  function LoadEnv(env: Env, file: Option<string>): Env {
    if file.None? then env else ApplyLines(env, Split(file.value, '\n'))
  }

  /** A key that is set to a non-empty value is never overridden by a file. */
  lemma {:induction false} ApplyLinesKeepsSetKeys(env: Env, lines: seq<string>, key: string)
    requires Truthy(EnvGet(env, key))
    ensures key in ApplyLines(env, lines) && ApplyLines(env, lines)[key] == env[key]
  {
    if |lines| > 0 {
      ApplyLinesKeepsSetKeys(env, lines[..|lines| - 1], key);
    }
  }

  /** Loading never removes a key, and only the keys of parsed lines can change. */
  lemma {:induction false} ApplyLinesOnlyTouchesParsedKeys(env: Env, lines: seq<string>, key: string)
    requires forall i :: 0 <= i < |lines| && ParseLine(lines[i]).Some? ==> ParseLine(lines[i]).value.0 != key
    ensures EnvGet(ApplyLines(env, lines), key) == EnvGet(env, key)
  {
    if |lines| > 0 {
      ApplyLinesOnlyTouchesParsedKeys(env, lines[..|lines| - 1], key);
    }
  }

  /** A value that `.env.local` sets is the one that stays, whatever `.env` says. */
  lemma EnvLocalWins(env: Env, local: string, dotEnv: Option<string>, key: string)
    requires Truthy(EnvGet(LoadEnv(env, Some(local)), key))
    ensures EnvGet(LoadEnv(LoadEnv(env, Some(local)), dotEnv), key) == EnvGet(LoadEnv(env, Some(local)), key)
  {
    if dotEnv.Some? {
      ApplyLinesKeepsSetKeys(LoadEnv(env, Some(local)), Split(dotEnv.value, '\n'), key);
    }
  }

  /** Everything after the first `=` is the value, so a value may itself contain `=`; the line's
      trailing whitespace and the value's surrounding whitespace and quotes are dropped. */
  lemma ValueKeepsLaterEquals(key: string, value: string)
    requires key != "" && '=' !in key && !IsWhitespace(key[0]) && key[0] != '#'
    ensures ParseLine(key + "=" + value) == Some((Trim(key), StripQuotes(Trim(value))))
  {
    var line := key + "=" + value;
    var t := key + "=" + TrimEnd(value);
    TrimmedLine(key, value);
    assert t[..|key|] == key;
    SplitAtFirst(t, '=', |key|);
    assert t[|key| + 1..] == TrimEnd(value);
    TrimEndIdempotent(value);
    assert t[0] == key[0];
    ParseLineUnfold(line);
  }

  /** Proof step: `ParseLine` unfolded for a line with a key before its first `=`. */
  lemma ParseLineUnfold(line: string)
    requires Trim(line) != "" && !StartsWith(Trim(line), "#")
    requires Split(Trim(line), '=')[0] != "" && |Split(Trim(line), '=')| >= 2
    ensures ParseLine(line) ==
      Some((Trim(Split(Trim(line), '=')[0]), StripQuotes(Trim(Join(Split(Trim(line), '=')[1..], '=')))))
  {
  }

  lemma TrimmedLine(key: string, value: string)
    requires key != "" && !IsWhitespace(key[0])
    ensures Trim(key + "=" + value) == key + "=" + TrimEnd(value)
  {
    var head := key + "=";
    assert key + "=" + value == head + value;
    TrimEndAppend(head, value);
    var t := head + TrimEnd(value);
    assert t[0] == key[0];
  }

  /** A key set to the empty string counts as unset and is filled from the file. */
  lemma EmptyValueIsReplaced(env: Env, line: string, key: string, value: string)
    requires EnvGet(env, key) == Some("") && ParseLine(line) == Some((key, value))
    ensures ApplyLines(env, [line]) == env[key := value]
  {
    assert [line][..0] == [];
  }

  /** A quoted value keeps everything between its quotes, `=` and inner whitespace included. */
  lemma QuotedValueIsKept(key: string, inner: string)
    requires key != "" && '=' !in key && !IsWhitespace(key[0]) && key[0] != '#'
    ensures ParseLine(key + "=" + ("\"" + inner + "\"")) == Some((Trim(key), inner))
  {
    ValueKeepsLaterEquals(key, "\"" + inner + "\"");
    QuotesStripped(inner);
  }

  lemma QuotesStripped(inner: string)
    ensures StripQuotes(Trim("\"" + inner + "\"")) == inner
  {
    var quoted := "\"" + inner + "\"";
    assert quoted[0] == '"' && quoted[|quoted| - 1] == '"';
    TrimUnchanged(quoted);
    assert quoted[1..|quoted| - 1] == inner;
  }

  // ---------------------------------------------------------------------------
  // The script
  // ---------------------------------------------------------------------------

  datatype ScriptOutcome =
    | AlreadyExists(existing: User)
    | Created(admin: User)
    | Failed(message: string)

  const NoMongoUri := "Please add your Mongo URI to .env.local or set MONGODB_URI environment variable"

  class SetupScript {
    var env: Env
    /** The URI of the cached client connection (`clientPromise`), if one was made. */
    var client: Option<string>
    /** How many client connections were opened. */
    var connections: nat
    /** The `users` collection, in insertion order. */
    var users: seq<User>

    constructor (initialEnv: Env, initialUsers: seq<User>)
      ensures env == initialEnv && users == initialUsers && client.None? && connections == 0
    {
      env := initialEnv;
      client := None;
      connections := 0;
      users := initialUsers;
    }

    /** The `forEach` callback for one line. */
    method LoadLine(line: string)
      modifies this
      ensures env == ApplyLine(old(env), line)
      ensures users == old(users) && client == old(client) && connections == old(connections)
    {
      var next := NextEnv(env, line);
      env := next;
    }

    /** `loadEnvFile`, line by line. */
    method LoadEnvFile(file: Option<string>)
      modifies this
      ensures env == LoadEnv(old(env), file)
      ensures users == old(users) && client == old(client) && connections == old(connections)
    {
      if file.None? {
        return;
      }
      var lines := Split(file.value, '\n');
      for i := 0 to |lines|
        invariant env == ApplyLines(old(env), lines[..i])
        invariant users == old(users) && client == old(client) && connections == old(connections)
      {
        ApplyLinesStep(old(env), lines, i);
        LoadLine(lines[i]);
      }
      assert lines[..|lines|] == lines;
    }

    /** `getMongoClient`: fails without a URI; otherwise connects once and reuses the client. */
    method GetMongoClient() returns (r: Result<string, string>)
      modifies this
      ensures env == old(env) && users == old(users)
      ensures !Truthy(EnvGet(env, MongoUriVar)) ==>
        r == Err(NoMongoUri) && client == old(client) && connections == old(connections)
      ensures Truthy(EnvGet(env, MongoUriVar)) && old(client).Some? ==>
        r == Ok(old(client).value) && client == old(client) && connections == old(connections)
      ensures Truthy(EnvGet(env, MongoUriVar)) && old(client).None? ==>
        r == Ok(env[MongoUriVar]) && client == Some(env[MongoUriVar]) && connections == old(connections) + 1
    {
      if !Truthy(EnvGet(env, MongoUriVar)) {
        return Err(NoMongoUri);
      }
      if client.Some? {
        return Ok(client.value);
      }
      client := Some(env[MongoUriVar]);
      connections := connections + 1;
      r := Ok(client.value);
    }

    /** `createDefaultAdmin`: the default admin is inserted unless a user with its email exists;
        both database calls share one connection. */
    method CreateDefaultAdmin(newId: string, now: Timestamp, hash: string -> string) returns (outcome: ScriptOutcome)
      modifies this
      ensures env == old(env)
      ensures connections <= old(connections) + 1
      ensures !Truthy(EnvGet(env, MongoUriVar)) ==> outcome == Failed(NoMongoUri) && users == old(users)
      ensures Truthy(EnvGet(env, MongoUriVar)) && UserByEmail(old(users), AdminSettingsFrom(env).email).Some? ==>
        outcome == AlreadyExists(UserByEmail(old(users), AdminSettingsFrom(env).email).value) && users == old(users)
      ensures Truthy(EnvGet(env, MongoUriVar)) && UserByEmail(old(users), AdminSettingsFrom(env).email).None? ==>
        var admin := NewAdminUser(newId, AdminSettingsFrom(env).email, hash(AdminSettingsFrom(env).password), AdminSettingsFrom(env).name, now);
        outcome == Created(admin) && users == old(users) + [admin]
    {
      var conn := GetMongoClient();
      if conn.Err? {
        return Failed(conn.error);
      }
      var existing := UserByEmail(users, AdminSettingsFrom(env).email);
      if existing.Some? {
        return AlreadyExists(existing.value);
      }
      conn := GetMongoClient();
      var admin := NewAdminUser(newId, AdminSettingsFrom(env).email, hash(AdminSettingsFrom(env).password), AdminSettingsFrom(env).name, now);
      users := users + [admin];
      outcome := Created(admin);
    }

    /** The whole script: `.env.local`, then `.env`, then the admin. */
    method Run(localFile: Option<string>, envFile: Option<string>, newId: string, now: Timestamp, hash: string -> string)
      returns (outcome: ScriptOutcome)
      modifies this
      ensures env == LoadEnv(LoadEnv(old(env), localFile), envFile)
      ensures !Truthy(EnvGet(env, MongoUriVar)) ==> outcome == Failed(NoMongoUri)
      ensures Truthy(EnvGet(env, MongoUriVar)) && UserByEmail(old(users), AdminSettingsFrom(env).email).Some? ==>
        outcome == AlreadyExists(UserByEmail(old(users), AdminSettingsFrom(env).email).value)
      ensures Truthy(EnvGet(env, MongoUriVar)) && UserByEmail(old(users), AdminSettingsFrom(env).email).None? ==>
        outcome == Created(NewAdminUser(newId, AdminSettingsFrom(env).email, hash(AdminSettingsFrom(env).password),
                                        AdminSettingsFrom(env).name, now))
      ensures outcome.Created? ==>
        users == old(users) + [outcome.admin] && outcome.admin.email == AdminSettingsFrom(env).email
        && UserByEmail(old(users), AdminSettingsFrom(env).email).None?
      ensures !outcome.Created? ==> users == old(users)
    {
      LoadEnvFile(localFile);
      LoadEnvFile(envFile);
      outcome := CreateDefaultAdmin(newId, now, hash);
    }
  }

  /** Running the script twice creates the admin at most once. */
  lemma SecondRunFindsTheAdmin(users: seq<User>, env: Env, id: string, now: Timestamp, hash: string -> string)
    requires UserByEmail(users, AdminSettingsFrom(env).email).None?
    ensures UserByEmail(users + [NewAdminUser(id, AdminSettingsFrom(env).email, hash(AdminSettingsFrom(env).password), AdminSettingsFrom(env).name, now)],
                        AdminSettingsFrom(env).email).Some?
  {
    InsertAdminEffect(users, id, AdminSettingsFrom(env).email, hash(AdminSettingsFrom(env).password), AdminSettingsFrom(env).name, now);
  }
}
