/**
 * The database server and the mysqli client library as the importer sees them:
 * a catalogue of databases with their table counts, a scripted sequence of
 * connection outcomes, and an oracle naming the statements the engine rejects
 * together with the error text it reports. Every interaction is logged, so that
 * properties about what the importer sent, and in what order, can be stated.
 */
module Engine {
  import opened Php

  /** What one mysqli_connect() call does. */
  datatype ConnectOutcome =
    | Accept                              // a new session opens; the call returns a link
    | Refuse(errno: nat, error: string)   // the call returns false
    | Raise(errno: nat, error: string)    // the call throws

  datatype Event =
    | Connect(host: Option<string>, port: Option<string>, user: string, password: Option<string>)
    | SelectDb(session: nat, name: string)
    | Query(session: nat, sql: string)

  datatype Server = Server(
    databases: map<string, nat>,        // database name -> number of tables
    script: seq<ConnectOutcome>,        // outcomes of the next connection attempts
    afterScript: ConnectOutcome,        // outcome of every attempt once the script is used up
    failures: map<string, string>,      // statements the engine rejects -> error text
    sessions: nat,                      // sessions opened so far; session k is link k
    selected: map<nat, string>,         // database selected in each session
    lastError: map<nat, string>,        // mysqli_error() of each session
    connectErrno: nat,                  // mysqli_connect_errno()
    connectError: string,               // mysqli_connect_error()
    log: seq<Event>)
  {
    /** The outcome the next connection attempt gets. */
    function Next(): ConnectOutcome
    {
      if script == [] then afterScript else script[0]
    }

    /** mysqli_error() of a session: the error text of its last statement, "" after a success. */
    function ErrorOf(session: nat): string
    {
      if session in lastError then lastError[session] else ""
    }
  }

  /** One mysqli_connect() attempt; an accepted attempt opens session `sessions + 1`. */
  function ConnectAttempt(s: Server, host: Option<string>, port: Option<string>, user: string, password: Option<string>)
    : (Server, ConnectOutcome)
  {
    var o := s.Next();
    var s1 := s.(script := if s.script == [] then [] else s.script[1..],
                 log := s.log + [Event.Connect(host, port, user, password)]);
    match o
    case Accept => (s1.(sessions := s.sessions + 1, connectErrno := 0, connectError := ""), o)
    case Refuse(n, e) => (s1.(connectErrno := n, connectError := e), o)
    case Raise(n, e) => (s1.(connectErrno := n, connectError := e), o)
  }

  /** mysqli_select_db(): succeeds, and changes the session's selection, only for an existing database. */
  function SelectDatabase(s: Server, session: nat, name: string): Server
  {
    var s1 := s.(log := s.log + [Event.SelectDb(session, name)]);
    if name in s.databases then s1.(selected := s.selected[session := name]) else s1
  }

  /**
   * SQL LIKE matching of a name against a pattern: `%` matches any run of
   * characters, `_` matches exactly one, every other character itself.
   */
  predicate Like(name: string, pattern: string)
    decreases |name| + |pattern|
  {
    if pattern == [] then name == []
    else if pattern[0] == '%' then Like(name, pattern[1..]) || (name != [] && Like(name[1..], pattern))
    else name != [] && (pattern[0] == '_' || pattern[0] == name[0]) && Like(name[1..], pattern[1..])
  }

  /** SHOW DATABASES LIKE '<pattern>': whether at least one row comes back. */
  function ShowDatabasesLike(s: Server, session: nat, sql: string, pattern: string): (Server, bool)
  {
    (s.(log := s.log + [Query(session, sql)], lastError := s.lastError[session := ""]),
     exists d :: d in s.databases && Like(d, pattern))
  }

  /** SHOW TABLES: the number of rows, i.e. of tables in the session's selected database (none selected: zero rows). */
  function ShowTables(s: Server, session: nat, sql: string): (Server, nat)
  {
    (s.(log := s.log + [Query(session, sql)], lastError := s.lastError[session := ""]),
     if session in s.selected && s.selected[session] in s.databases then s.databases[s.selected[session]] else 0)
  }

  /** mysqli_query() of a statement that, when accepted, leaves the catalogue as `catalogue`. */
  function Statement(s: Server, session: nat, sql: string, catalogue: map<string, nat>): (Server, bool)
  {
    var s1 := s.(log := s.log + [Query(session, sql)]);
    if sql in s.failures then (s1.(lastError := s.lastError[session := s.failures[sql]]), false)
    else (s1.(lastError := s.lastError[session := ""], databases := catalogue), true)
  }

  /** A statement from the dump. The model only records whether it is accepted or rejected; it leaves the catalogue, table counts and selected database as they were. */
  function Execute(s: Server, session: nat, sql: string): (Server, bool)
  {
    Statement(s, session, sql, s.databases)
  }

  /** CREATE DATABASE: when accepted, the database exists (a new one with no tables). */
  function CreateDatabase(s: Server, session: nat, sql: string, name: string): (Server, bool)
  {
    Statement(s, session, sql, if name in s.databases then s.databases else s.databases[name := 0])
  }

  /** DROP DATABASE: when accepted, the database is gone. */
  function DropDatabase(s: Server, session: nat, sql: string, name: string): (Server, bool)
  {
    Statement(s, session, sql, s.databases - {name})
  }

  /** Every name matches itself used as a pattern, whatever wildcards it contains. */
  lemma {:induction false} LikeSelf(name: string)
    ensures Like(name, name)
    decreases |name|
  {
    if name != [] {
      LikeSelf(name[1..]);
      if name[0] == '%' {
        assert Like(name[1..], name[1..]);
        assert Like(name[1..], name);
      }
    }
  }

  /** A pattern without wildcards matches exactly the name equal to it. */
  lemma {:induction false} LikeWithoutWildcards(name: string, pattern: string)
    requires forall i :: 0 <= i < |pattern| ==> pattern[i] != '%' && pattern[i] != '_'
    ensures Like(name, pattern) <==> name == pattern
    decreases |pattern|
  {
    if pattern != [] && name != [] {
      LikeWithoutWildcards(name[1..], pattern[1..]);
      if name[0] == pattern[0] {
        assert name == [name[0]] + name[1..];
        assert pattern == [pattern[0]] + pattern[1..];
      }
    }
  }

  /** `_` lets a database name stand for a different, existing one. */
  lemma UnderscoreMatchesOtherNames()
    ensures Like("my-db", "my_db") && "my-db" != "my_db"
  {
    assert Like("db", "db") by { LikeSelf("db"); }
    assert Like("-db", "_db");
  }
}
