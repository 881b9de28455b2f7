/** `create_langchain_vector_store`: four configuration lookups and one
    secret lookup assembled into a SQLAlchemy/psycopg connection URL, handed
    to the vector store with the collection name and `use_jsonb=True`. The
    vector store object itself is represented by the settings it is built
    from. */
module PostgresDatabaseManager {
  import opened Exceptions
  import opened Strings
  import opened ConfigurationManager
  import opened OsEnvironmentSecretManager

  const Scheme := "postgresql+psycopg://"
  /** The section of the configuration the four connection keys live in. */
  const SectionName := "postgres_database_manager"
  const HostKey := SectionName + "." + "host"
  const PortKey := SectionName + "." + "port"
  const DatabaseNameKey := SectionName + "." + "database_name"
  const UserKey := SectionName + "." + "user"
  const PasswordSecret := "DB_PASSWORD"

  /** The five parts of a connection URL. */
  datatype ConnectionParts = ConnectionParts(user: string, password: string, host: string, port: string, databaseName: string)

  /** The URL template `postgresql+psycopg://{user}:{password}@{host}:{port}/{database_name}`. */
  function ConnectionString(c: ConnectionParts): (r: string)
    ensures |Scheme| <= |r| && r[..|Scheme|] == Scheme
    ensures Unambiguous(c) ==> ParseConnectionString(r) == Some(c)
  {
    var rest := c.user + ":" + (c.password + "@" + (c.host + ":" + (c.port + "/" + c.databaseName)));
    var s := Scheme + rest;
    assert s[..|Scheme|] == Scheme && s[|Scheme|..] == rest;
    ParseAfterSchemeRoundTripWhen(c);
    s
  }

  /** The text before and after the first `c` in `s`, if `c` occurs. */
  function SplitAtFirst(s: string, c: char): Option<(string, string)>
  {
    var i := Find(s, c);
    if i < 0 then None else Some((s[..i], s[i + 1..]))
  }

  /** The text before and after the last `c` in `s`, if `c` occurs. */
  function SplitAtLast(s: string, c: char): Option<(string, string)>
  {
    var i := RFind(s, c);
    if i < 0 then None else Some((s[..i], s[i + 1..]))
  }

  lemma SplitAtFirstOf(a: string, c: char, b: string)
    requires c !in a
    ensures SplitAtFirst(a + [c] + b, c) == Some((a, b))
  {
    var s := a + [c] + b;
    assert s[|a|] == c && s[..|a|] == a && s[|a| + 1..] == b;
  }

  lemma SplitAtLastOf(a: string, c: char, b: string)
    requires c !in b
    ensures SplitAtLast(a + [c] + b, c) == Some((a, b))
  {
    var s := a + [c] + b;
    assert s[|a|] == c && s[..|a|] == a && s[|a| + 1..] == b;
  }

  /** Reads a URL of the template's shape back into its parts: the user ends at
      the first ':', the password at the last '@', the host at the next ':'
      and the port at the next '/'. */
  function ParseConnectionString(s: string): Option<ConnectionParts>
  {
    if |s| < |Scheme| || s[..|Scheme|] != Scheme then None
    else ParseAfterScheme(s[|Scheme|..])
  }

  /** Reads `user:password@host:port/database`: the user ends at the first
      ':', the password at the last '@', the host at the next ':' and the
      port at the next '/'. */
  function ParseAfterScheme(rest: string): Option<ConnectionParts>
  {
    match SplitAtFirst(rest, ':')
    case None => None
    case Some((user, afterUser)) =>
      match SplitAtLast(afterUser, '@')
      case None => None
      case Some((password, location)) =>
        match SplitAtFirst(location, ':')
        case None => None
        case Some((host, afterHost)) =>
          match SplitAtFirst(afterHost, '/')
          case None => None
          case Some((port, databaseName)) => Some(ConnectionParts(user, password, host, port, databaseName))
  }

  /** The parts a URL can be read back from: the password is free, the
      separators may not occur where the parser looks for them. */
  predicate Unambiguous(c: ConnectionParts)
  {
    && ':' !in c.user
    && ':' !in c.host && '@' !in c.host
    && '/' !in c.port && '@' !in c.port
    && '@' !in c.databaseName
  }

  /** The text after the scheme reads back into the five parts. */
  lemma ParseAfterSchemeRoundTrip(c: ConnectionParts)
    requires Unambiguous(c)
    ensures ParseAfterScheme(c.user + ":" + (c.password + "@" + (c.host + ":" + (c.port + "/" + c.databaseName)))) == Some(c)
  {
    var afterHost := c.port + ['/'] + c.databaseName;
    var location := c.host + [':'] + afterHost;
    var afterUser := c.password + ['@'] + location;
    var rest := c.user + [':'] + afterUser;
    assert rest == c.user + ":" + (c.password + "@" + (c.host + ":" + (c.port + "/" + c.databaseName)));
    SplitAtFirstOf(c.user, ':', afterUser);
    assert '@' !in location;
    SplitAtLastOf(c.password, '@', location);
    SplitAtFirstOf(c.host, ':', afterHost);
    SplitAtFirstOf(c.port, '/', c.databaseName);
  }

  lemma ParseAfterSchemeRoundTripWhen(c: ConnectionParts)
    ensures Unambiguous(c) ==>
      ParseAfterScheme(c.user + ":" + (c.password + "@" + (c.host + ":" + (c.port + "/" + c.databaseName)))) == Some(c)
  {
    if Unambiguous(c) {
      ParseAfterSchemeRoundTrip(c);
    }
  }

  /** What `PGVector(...)` is constructed with. */
  datatype VectorStoreSettings = VectorStoreSettings(connection: string, collectionName: string, useJsonb: bool)

  /** The exception of the first failing lookup among `lookups`, if any fails. */
  function FirstFailure(lookups: seq<Result<string>>): Option<Exception>
  {
    if |lookups| == 0 then None
    else if lookups[0].Raise? then Some(lookups[0].exception)
    else FirstFailure(lookups[1..])
  }

  /** The connection URL, given the outcomes of the five lookups in the order
      the source performs them: host, port, database name, user, password. */
  function Assemble(host: Result<string>, port: Result<string>, databaseName: Result<string>,
                    user: Result<string>, password: Result<string>, collectionName: string): (r: Result<VectorStoreSettings>)
    ensures r.Ok? <==> host.Ok? && port.Ok? && databaseName.Ok? && user.Ok? && password.Ok?
    ensures r.Raise? ==> FirstFailure([host, port, databaseName, user, password]) == Some(r.exception)
    ensures r.Ok? ==>
      && r.value.connection == ConnectionString(ConnectionParts(user.value, password.value, host.value, port.value, databaseName.value))
      && r.value.collectionName == collectionName
      && r.value.useJsonb
  {
    var lookups := [host, port, databaseName, user, password];
    assert lookups[1..] == [port, databaseName, user, password];
    assert lookups[1..][1..] == [databaseName, user, password];
    assert lookups[1..][1..][1..] == [user, password];
    assert lookups[1..][1..][1..][1..] == [password];
    assert FirstFailure(lookups[1..][1..][1..][1..]) == if password.Raise? then Some(password.exception) else None;
    assert FirstFailure(lookups[1..][1..]) ==
      if databaseName.Raise? then Some(databaseName.exception) else FirstFailure(lookups[1..][1..][1..]);
    var h :- host;
    var p :- port;
    var d :- databaseName;
    var u :- user;
    var pw :- password;
    Ok(VectorStoreSettings(ConnectionString(ConnectionParts(u, pw, h, p, d)), collectionName, true))
  }

  /** `create_langchain_vector_store`. A failing lookup raises before any store
      is built; otherwise the URL carries the four configured parts and the
      DB_PASSWORD secret, the collection name is passed through and JSONB
      metadata is always on. */
  function CreateLangchainVectorStore(config: Configuration, env: Environment, collectionName: string,
                                      containerStr: Value -> string): (r: Result<VectorStoreSettings>)
    ensures var host, port, databaseName, user :=
        GetValue(config, HostKey, containerStr), GetValue(config, PortKey, containerStr),
        GetValue(config, DatabaseNameKey, containerStr), GetValue(config, UserKey, containerStr);
      && (r.Ok? <==> host.Ok? && port.Ok? && databaseName.Ok? && user.Ok? && PasswordSecret in env)
      && (r.Ok? ==>
            && r.value.connection ==
               ConnectionString(ConnectionParts(user.value, env[PasswordSecret], host.value, port.value, databaseName.value))
            && r.value.collectionName == collectionName
            && r.value.useJsonb)
  {
    Assemble(GetValue(config, HostKey, containerStr),
             GetValue(config, PortKey, containerStr),
             GetValue(config, DatabaseNameKey, containerStr),
             GetValue(config, UserKey, containerStr),
             GetSecret(env, PasswordSecret),
             collectionName)
  }

  /** Two configurations holding the same section answer every lookup of a
      `section.field` key alike, found or not. */
  lemma SameSectionSameLookup(c1: Configuration, c2: Configuration, section: string, field: string,
                              containerStr: Value -> string)
    requires section in c1.root && section in c2.root && c1.root[section] == c2.root[section]
    requires ValidKey(section) && ValidKey(field) && '.' !in section && '.' !in field
    ensures GetValue(c1, section + "." + field, containerStr) == GetValue(c2, section + "." + field, containerStr)
  {
    var segments := [section, field];
    assert segments[1..] == [field];
    assert Join(segments, ".") == section + "." + field;
    assert "." == ['.'];
    JoinValidKey(segments);
    SplitJoin(segments, '.');
    assert Walk(Dict(c1.root), segments, containerStr) == Walk(c1.root[section], [field], containerStr);
    assert Walk(Dict(c2.root), segments, containerStr) == Walk(c2.root[section], [field], containerStr);
  }

  /** The four fields of the connection section. */
  predicate ConnectionField(field: string)
  {
    field == "host" || field == "port" || field == "database_name" || field == "user"
  }

  /** The section name is a valid key without a dot. */
  lemma SectionNameIsPlain()
    ensures ValidKey(SectionName) && '.' !in SectionName
  {
    var section := SectionName;
    forall i | 0 <= i < |section|
      ensures IsKeyChar(section[i]) && section[i] != '.'
    {
    }
  }

  /** Each connection key is looked up alike in two configurations holding
      the same `postgres_database_manager` section. */
  lemma SectionKeyAgrees(c1: Configuration, c2: Configuration, field: string, containerStr: Value -> string)
    requires SectionName in c1.root && SectionName in c2.root
    requires c1.root[SectionName] == c2.root[SectionName]
    requires ConnectionField(field)
    ensures GetValue(c1, SectionName + "." + field, containerStr) == GetValue(c2, SectionName + "." + field, containerStr)
  {
    SectionNameIsPlain();
    assert ValidKey(field) && '.' !in field;
    SameSectionSameLookup(c1, c2, SectionName, field, containerStr);
  }

  /** Configuration cannot supply the password: two configurations holding the
      same `postgres_database_manager` section build the same store, whatever
      else they hold. */
  lemma PasswordNotFromConfiguration(c1: Configuration, c2: Configuration, env: Environment,
                                     collectionName: string, containerStr: Value -> string)
    requires SectionName in c1.root && SectionName in c2.root
    requires c1.root[SectionName] == c2.root[SectionName]
    ensures CreateLangchainVectorStore(c1, env, collectionName, containerStr) ==
            CreateLangchainVectorStore(c2, env, collectionName, containerStr)
  {
    SectionKeyAgrees(c1, c2, "host", containerStr);
    SectionKeyAgrees(c1, c2, "port", containerStr);
    SectionKeyAgrees(c1, c2, "database_name", containerStr);
    SectionKeyAgrees(c1, c2, "user", containerStr);
  }
}
