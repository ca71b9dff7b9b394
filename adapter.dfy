/**
 * DatabaseAdapter: the connection settings, the current link, and the probes
 * (exists, blank) and catalogue statements (create, drop) the importer issues
 * over that link. Each method of the class is specified by a step function on
 * the value `Conn` of its mutable fields; the lemmas below state what those
 * steps promise.
 */
module Adapter {
  import opened Php
  import opened Engine

  /** The six connection settings; any of them may be null. */
  datatype Props = Props(
    host: Option<string>,
    port: Option<string>,
    database: Option<string>,
    user: Option<string>,
    password: Option<string>,
    rootPassword: Option<string>)

  /** `$properties[$key]` of a PHP array: a missing key reads as null. */
  function Lookup(properties: map<string, Option<string>>, key: string): Option<string>
  {
    if key in properties then properties[key] else None
  }

  /** What the constructor copies out of its property map. */
  function FromProperties(properties: map<string, Option<string>>): Props
  {
    Props(Lookup(properties, "host"), Lookup(properties, "port"), Lookup(properties, "database"),
          Lookup(properties, "user"), Lookup(properties, "password"), Lookup(properties, "rootPassword"))
  }

  /** The six settings as a property map, the form the constructor receives them in. */
  function Properties(p: Props): map<string, Option<string>>
  {
    map["host" := p.host, "port" := p.port, "database" := p.database,
        "user" := p.user, "password" := p.password, "rootPassword" := p.rootPassword]
  }

  /** The constructor loses nothing of a map holding exactly the six settings, and copies every setting back. */
  lemma PropertiesRoundTrip(properties: map<string, Option<string>>, p: Props)
    requires properties.Keys == {"host", "port", "database", "user", "password", "rootPassword"}
    ensures Properties(FromProperties(properties)) == properties
    ensures FromProperties(Properties(p)) == p
  {
    var m := Properties(FromProperties(properties));
    assert m.Keys == properties.Keys;
    forall k | k in m ensures m[k] == properties[k] {
      assert k == "host" || k == "port" || k == "database" || k == "user" || k == "password" || k == "rootPassword";
    }
  }

  /** getInfo(): host, port and database, and nothing else. */
  function Info(p: Props): map<string, Option<string>>
  {
    map["host" := p.host, "port" := p.port, "database" := p.database]
  }

  /** The adapter's mutable fields. */
  datatype Conn = Conn(
    link: Option<nat>,          // the mysqli link, None when false or null
    connectError: Option<nat>,  // errno of the last failed connect, None when null
    existsRow: bool,            // whether exists() cached a row ($exists)
    empty: Option<bool>,        // what blank() cached, None before the first call
    server: Server)

  function ExistsSql(database: string): string
  {
    "SHOW DATABASES LIKE '" + database + "'"
  }

  const ShowTablesSql: string := "SHOW TABLES"

  function CreateSql(database: string): string
  {
    "CREATE DATABASE `" + database + "` CHARACTER SET utf8 COLLATE utf8_general_ci"
  }

  function DropSql(database: string): string
  {
    "DROP DATABASE `" + database + "`"
  }

  /** connect(): the error is reset, the link replaced by the attempt's result, and errno recorded on a falsy link; a throwing attempt leaves the link as it was. */
  function ConnectStep(c: Conn, p: Props, user: string, password: Option<string>): Conn
  {
    var (s, o) := ConnectAttempt(c.server, p.host, p.port, user, password);
    if o.Raise? then c.(server := s, connectError := None)
    else
      var link := if o.Accept? then Some(s.sessions) else None;
      c.(server := s, link := link, connectError := if link.None? then Some(s.connectErrno) else None)
  }

  /** exists(): SHOW DATABASES LIKE '<database>', caching whether a row came back. */
  function ExistsStep(c: Conn, p: Props): (Conn, bool)
    requires c.link.Some?
  {
    var (s, row) := ShowDatabasesLike(c.server, c.link.value, ExistsSql(Text(p.database)), Text(p.database));
    (c.(server := s, existsRow := row), row)
  }

  /** blank(): select the database, then SHOW TABLES, caching whether it listed none. */
  function BlankStep(c: Conn, p: Props): (Conn, bool)
    requires c.link.Some?
  {
    var s1 := SelectDatabase(c.server, c.link.value, Text(p.database));
    var (s2, tables) := ShowTables(s1, c.link.value, ShowTablesSql);
    (c.(server := s2, empty := Some(tables == 0)), tables == 0)
  }

  /** create(): one CREATE DATABASE statement, its result returned unchecked. */
  function CreateStep(c: Conn, p: Props): (Conn, bool)
    requires c.link.Some?
  {
    var (s, ok) := CreateDatabase(c.server, c.link.value, CreateSql(Text(p.database)), Text(p.database));
    (c.(server := s), ok)
  }

  /** drop(): nothing at all unless the argument loosely equals 'yes'. */
  function DropStep(c: Conn, p: Props, agree: Mixed): (Conn, Option<bool>)
    requires LooselyYes(agree) ==> c.link.Some?
  {
    if !LooselyYes(agree) then (c, None)
    else
      var (s, ok) := DropDatabase(c.server, c.link.value, DropSql(Text(p.database)), Text(p.database));
      (c.(server := s), Some(ok))
  }

  /** A property map holding exactly host, port and database is given back by getInfo(). */
  lemma InfoOfProperties(properties: map<string, Option<string>>)
    requires properties.Keys == {"host", "port", "database"}
    ensures Info(FromProperties(properties)) == properties
  {
    var info := Info(FromProperties(properties));
    assert info.Keys == properties.Keys;
    forall k | k in info ensures info[k] == properties[k] {
      assert k == "host" || k == "port" || k == "database";
    }
  }

  /** connect() records an error exactly for a refused attempt, and keeps the old link when the attempt throws. */
  lemma ConnectRules(c: Conn, p: Props, user: string, password: Option<string>)
    ensures var r := ConnectStep(c, p, user, password);
            var o := c.server.Next();
            && r.server.log == c.server.log + [Event.Connect(p.host, p.port, user, password)]
            && (r.connectError.Some? <==> o.Refuse?)
            && (r.connectError.Some? ==> r.link.None? && r.connectError.value == o.errno)
            && (o.Accept? ==> r.link == Some(c.server.sessions + 1))
            && (o.Refuse? ==> r.link.None?)
            && (o.Raise? ==> r.link == c.link)
            && r.server.databases == c.server.databases
            && r.server.failures == c.server.failures
  {
  }

  /** exists() is a LIKE match: it finds the database itself, but also any name its `_` and `%` match. */
  lemma ExistsMatchesPattern(c: Conn, p: Props)
    requires c.link.Some?
    ensures var (r, found) := ExistsStep(c, p);
            && (found <==> exists d :: d in c.server.databases && Like(d, Text(p.database)))
            && (Text(p.database) in c.server.databases ==> found)
            && r.existsRow == found
            && r.server.log == c.server.log + [Query(c.link.value, ExistsSql(Text(p.database)))]
            && r.server.databases == c.server.databases && r.server.failures == c.server.failures
            && r.server.selected == c.server.selected
  {
    LikeSelf(Text(p.database));
  }

  /** blank() selects the database before listing its tables, and reports whether there are none. */
  lemma BlankSelectsThenLists(c: Conn, p: Props)
    requires c.link.Some?
    ensures var (r, blank) := BlankStep(c, p);
            var db := Text(p.database);
            var k := c.link.value;
            && r.server.log == c.server.log + [Event.SelectDb(k, db), Query(k, ShowTablesSql)]
            && (db in c.server.databases ==>
                  (blank <==> c.server.databases[db] == 0) && r.server.selected == c.server.selected[k := db])
            && (db !in c.server.databases ==> r.server.selected == c.server.selected)
            && r.empty == Some(blank)
            && r.server.databases == c.server.databases && r.server.failures == c.server.failures
  {
  }

  /** create() sends exactly one CREATE DATABASE with the utf8 charset and collation. */
  lemma CreateIssuesOneStatement(c: Conn, p: Props)
    requires c.link.Some?
    ensures var (r, ok) := CreateStep(c, p);
            var db := Text(p.database);
            var sql := CreateSql(db);
            && r.server.log == c.server.log + [Query(c.link.value, sql)]
            && (ok <==> sql !in c.server.failures)
            && (ok ==> db in r.server.databases && (db !in c.server.databases ==> r.server.databases[db] == 0))
            && (!ok ==> r.server.databases == c.server.databases
                        && r.server.ErrorOf(c.link.value) == c.server.failures[sql])
            && r.link == c.link && r.server.failures == c.server.failures
  {
  }

  /** drop() sends nothing unless its argument is loosely 'yes'; boolean true passes the gate too. */
  lemma DropNeedsYes(c: Conn, p: Props, agree: Mixed)
    requires LooselyYes(agree) ==> c.link.Some?
    ensures !LooselyYes(agree) ==> DropStep(c, p, agree) == (c, None)
    ensures LooselyYes(agree) ==>
              var (r, ok) := DropStep(c, p, agree);
              && r.server.log == c.server.log + [Query(c.link.value, DropSql(Text(p.database)))]
              && ok.Some?
              && (ok.value ==> Text(p.database) !in r.server.databases)
    ensures LooselyYes(Boolean(true)) && LooselyYes(Str("yes"))
    ensures !LooselyYes(Null) && !LooselyYes(Boolean(false)) && !LooselyYes(Str("YES")) && !LooselyYes(Str("y"))
    ensures LooselyYes(Int(0)) && forall i :: i != 0 ==> !LooselyYes(Int(i))
  {
  }

  /** The integer 0 passes the gate too: drop(0) drops the database when the engine accepts the statement. */
  lemma DropZeroDrops(c: Conn, p: Props)
    requires c.link.Some? && DropSql(Text(p.database)) !in c.server.failures
    ensures var (r, ok) := DropStep(c, p, Int(0));
            && ok == Some(true)
            && Text(p.database) !in r.server.databases
            && r.server.log == c.server.log + [Query(c.link.value, DropSql(Text(p.database)))]
  {
  }

  class DatabaseAdapter {
    const host: Option<string>
    const port: Option<string>
    const database: Option<string>
    const user: Option<string>
    const password: Option<string>
    const rootPassword: Option<string>

    var link: Option<nat>
    var connectError: Option<nat>
    var existsRow: bool
    var empty: Option<bool>
    /** The server the links lead to: external state that every probe and statement changes. */
    var server: Server

    function Config(): Props
    {
      Props(host, port, database, user, password, rootPassword)
    }

    function State(): Conn
      reads this
    {
      Conn(link, connectError, existsRow, empty, server)
    }

    /** Copies the six settings out of the property map; no link yet. */
    constructor (properties: map<string, Option<string>>, server: Server)
      ensures Config() == FromProperties(properties)
      ensures State() == Conn(None, None, false, None, server)
    {
      host := Lookup(properties, "host");
      port := Lookup(properties, "port");
      database := Lookup(properties, "database");
      user := Lookup(properties, "user");
      password := Lookup(properties, "password");
      rootPassword := Lookup(properties, "rootPassword");
      link := None;
      connectError := None;
      existsRow := false;
      empty := None;
      this.server := server;
    }

    method Connect(user: string, password: Option<string>) returns (l: Option<nat>)
      modifies this
      ensures State() == ConnectStep(old(State()), Config(), user, password)
      ensures l == link
    {
      connectError := None;
      var (s, o) := ConnectAttempt(server, host, port, user, password);
      server := s;
      if !o.Raise? {
        link := if o.Accept? then Some(s.sessions) else None;
        if link.None? {
          connectError := Some(s.connectErrno);
        }
      }
      l := link;
    }

    method Exists() returns (r: bool)
      requires link.Some?
      modifies this
      ensures (State(), r) == ExistsStep(old(State()), Config())
    {
      var (s, row) := ShowDatabasesLike(server, link.value, ExistsSql(Text(database)), Text(database));
      server := s;
      existsRow := row;
      r := existsRow;
    }

    method Blank() returns (r: bool)
      requires link.Some?
      modifies this
      ensures (State(), r) == BlankStep(old(State()), Config())
    {
      server := SelectDatabase(server, link.value, Text(database));
      var (s, tables) := ShowTables(server, link.value, ShowTablesSql);
      server := s;
      empty := Some(tables == 0);
      r := tables == 0;
    }

    method Create() returns (r: bool)
      requires link.Some?
      modifies this
      ensures (State(), r) == CreateStep(old(State()), Config())
    {
      var (s, ok) := CreateDatabase(server, link.value, CreateSql(Text(database)), Text(database));
      server := s;
      r := ok;
    }

    method Drop(agree: Mixed) returns (r: Option<bool>)
      requires LooselyYes(agree) ==> link.Some?
      modifies this
      ensures (State(), r) == DropStep(old(State()), Config(), agree)
    {
      if !LooselyYes(agree) {
        return None;
      }
      var (s, ok) := DropDatabase(server, link.value, DropSql(Text(database)), Text(database));
      server := s;
      r := Some(ok);
    }

    /** getInfo(): host, port and database as the constructor stored them, and no credential. */
    function GetInfo(): (info: map<string, Option<string>>)
      ensures info.Keys == {"host", "port", "database"}
      ensures FromProperties(info) == Config().(user := None, password := None, rootPassword := None)
    {
      Info(Config())
    }
  }
}
