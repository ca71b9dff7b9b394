/**
 * What run() and its helpers do, stated on values: the adapter's fields
 * (`Conn`), the files the importer sees, the waits it makes, and its exit code.
 * The class in mysql_import.dfy is proved to follow these functions step for
 * step; the lemmas below say what the functions promise.
 */
module Orchestrator {
  import opened Php
  import opened Engine
  import opened Adapter
  import opened Settings
  import opened Splitter

  /** Everything run() can change. */
  datatype World = World(
    conn: Conn,                       // the adapter's fields, server included
    fs: map<string, seq<string>>,     // existing files and their lines as file() returns them
    waits: seq<nat>,                  // the pauses made, in seconds
    exitCode: int)

  /** message(): only the first character is upper-cased. */
  function Message(text: string): string
  {
    Ucfirst(text)
  }

  /** A message whose first character is not a lower-case letter. */
  predicate Capitalized(m: string)
  {
    m == "" || !('a' <= m[0] <= 'z')
  }

  function Wait(w: World, seconds: nat): World
  {
    w.(waits := w.waits + [seconds])
  }

  function Attempt(w: World, p: Props, user: string, password: Option<string>): World
  {
    w.(conn := ConnectStep(w.conn, p, user, password))
  }

  /** Two connects with the same credentials, and a pause of `seconds` only after a first one that left no link. */
  function TwoAttempts(w: World, p: Props, user: string, password: Option<string>, seconds: nat): World
  {
    var w1 := Attempt(w, p, user, password);
    var w2 := if w1.conn.link.None? then Wait(w1, seconds) else w1;
    Attempt(w2, p, user, password)
  }

  /** messageDatabaseNotBlank(). */
  function NotBlank(w: World): (World, string)
  {
    (w.(exitCode := 0), Message("required blank database for import."))
  }

  function ConnectionProblemText(user: string, host: string, error: string, errno: nat): string
  {
    "connection problem for '" + user + "' on '" + host + "' with error: " + error + " (" + Decimal(errno) + ")."
  }

  /** messageConnectionProblem(): the client library's last connect error and its number. */
  function ConnectionProblem(w: World, p: Props, user: string): (World, string)
  {
    var s := w.conn.server;
    (w.(exitCode := 1), Message(ConnectionProblemText(user, Text(p.host), s.connectError, s.connectErrno)))
  }

  /** messageUnknownOption(). */
  function UnknownOption(w: World, u: Setup): (World, string)
  {
    (w.(exitCode := 2), Message("Unknown option '" + Text(u.unknownOption) + "'."))
  }

  /** file(): the lines of an existing file; a missing or unnamed one yields none. */
  function DumpLines(fs: map<string, seq<string>>, file: FileArg): seq<string>
  {
    if file.Path? && file.path in fs then fs[file.path] else []
  }

  /** writeLockFile(): the lock file records the database name; an unnamed lock file is not written. */
  function WriteLock(fs: map<string, seq<string>>, lockFile: FileArg, database: string): map<string, seq<string>>
  {
    if lockFile.Path? then fs[lockFile.path := [database]] else fs
  }

  function SuccessText(database: string): string
  {
    "database named '" + database + "' successfully imported."
  }

  /** import(). */
  function ImportSpec(w: World, p: Props, u: Setup): (World, string)
    requires u.file.NoFile? || w.conn.link.Some?
  {
    if u.file.NoFile? then (w, Message("blank database is ready."))
    else
      var k := w.conn.link.value;
      var s1 := SelectDatabase(w.conn.server, k, Text(p.database));
      var (s2, err) := ExecAll(s1, k, Statements(DumpLines(w.fs, u.file)));
      var w1 := w.(conn := w.conn.(server := s2));
      if err.Some? then (w1, Message(err.value))
      else (w1.(fs := WriteLock(w.fs, u.lockFile, Text(p.database))), Message(SuccessText(Text(p.database))))
  }

  /** The user path's probes after connecting: the LIKE probe, CREATE when it finds nothing (its result ignored), then the blank check. */
  function UserProbes(w1: World, p: Props): (Conn, bool)
    requires w1.conn.link.Some?
  {
    var (c1, found) := ExistsStep(w1.conn, p);
    var c2 := if found then c1 else CreateStep(c1, p).0;
    BlankStep(c2, p)
  }

  /** tryUserAndPassword(): None stands for `false`, the path declined. */
  function TryUserSpec(w: World, p: Props, u: Setup): (World, Option<string>)
  {
    if !TruthyOpt(p.user) || !TruthyOpt(p.password) then (w, None)
    else
      var w1 := TwoAttempts(w, p, p.user.value, p.password, 10);
      if w1.conn.link.None? then (w1, None)
      else
        var (c3, blank) := UserProbes(w1, p);
        var w2 := w1.(conn := c3);
        if !blank && !u.force then (NotBlank(w2).0, Some(NotBlank(w2).1))
        else (ImportSpec(w2, p, u).0, Some(ImportSpec(w2, p, u).1))
  }

  /** tryRootPassword(). */
  function TryRootSpec(w: World, p: Props, u: Setup): (World, string)
  {
    if !TruthyOpt(p.rootPassword) then (w, Message("required at least root password."))
    else
      var w1 := TwoAttempts(w, p, "root", p.rootPassword, 10);
      if w1.conn.link.None? then ConnectionProblem(w1, p, "root")
      else
        var (c1, found) := ExistsStep(w1.conn, p);
        if found then
          var (c2, blank) := BlankStep(c1, p);
          if blank || u.force then ImportSpec(w1.(conn := c2), p, u) else NotBlank(w1.(conn := c2))
        else
          var (c2, ok) := CreateStep(c1, p);
          if ok then ImportSpec(w1.(conn := c2), p, u)
          else (w1.(conn := c2), Message(c2.server.ErrorOf(c2.link.value)))
  }

  /** The dump is missing: null, or a name that reads as false. */
  predicate NoDumpNamed(u: Setup)
  {
    u.file.Unset? || (u.file.Path? && !Truthy(u.file.path))
  }

  /** The checks run() makes before any credentials are tried, after the optional wait for the server. */
  function PreChecked(w: World, p: Props, u: Setup): World
  {
    if u.doWhile then Wait(Attempt(w, p, "root", p.rootPassword), 5) else w
  }

  /** run(). */
  function RunSpec(w: World, p: Props, u: Setup): (World, string)
  {
    if TruthyOpt(u.unknownOption) then UnknownOption(w, u)
    else
      var w1 := PreChecked(w, p, u);
      if NoDumpNamed(u) then (w1, Message("required sql file to import."))
      else if u.file.Path? && u.file.path !in w1.fs then (w1, Message("sql file '" + u.file.path + "' not found."))
      else
        var w2 := if u.lockFile.Path? && u.lockFile.path in w1.fs then w1.(fs := w1.fs - {u.lockFile.path}) else w1;
        var (w3, m) := TryUserSpec(w2, p, u);
        if m.Some? && Truthy(m.value) then (w3, m.value) else TryRootSpec(w3, p, u)
  }

  // ---------------------------------------------------------------------------
  // Messages

  /** The fixed messages as printed: the first letter capitalised, the rest as written. */
  lemma MessageNotBlank()
    ensures Message("required blank database for import.") == "Required blank database for import."
  {
    UcfirstOf("required blank database for import.", "Required blank database for import.");
  }

  lemma MessageNoRootPassword()
    ensures Message("required at least root password.") == "Required at least root password."
  {
    UcfirstOf("required at least root password.", "Required at least root password.");
  }

  lemma MessageNoDump()
    ensures Message("required sql file to import.") == "Required sql file to import."
  {
    UcfirstOf("required sql file to import.", "Required sql file to import.");
  }

  lemma MessageBlankReady()
    ensures Message("blank database is ready.") == "Blank database is ready."
  {
    UcfirstOf("blank database is ready.", "Blank database is ready.");
  }

  lemma MessageFileNotFound(x: string)
    ensures Message("sql file '" + x + "' not found.") == "Sql file '" + x + "' not found."
  {
    UcfirstConcat("sql file '", x);
    UcfirstConcat("sql file '" + x, "' not found.");
    assert "sql file '"[1..] == "ql file '";
  }

  lemma MessageSuccess(x: string)
    ensures Message(SuccessText(x)) == "Database named '" + x + "' successfully imported."
  {
    UcfirstConcat("database named '", x);
    UcfirstConcat("database named '" + x, "' successfully imported.");
    assert "database named '"[1..] == "atabase named '";
  }

  lemma MessageUnknownOption(x: string)
    ensures Message("Unknown option '" + x + "'.") == "Unknown option '" + x + "'."
  {
    assert ("Unknown option '" + x + "'.")[0] == 'U';
  }

  // ---------------------------------------------------------------------------
  // Connecting

  /** Exactly two connects, a pause of `seconds` exactly when the first left no link, and nothing else touched. */
  lemma TwoAttemptsRule(w: World, p: Props, user: string, password: Option<string>, seconds: nat)
    ensures var r := TwoAttempts(w, p, user, password, seconds);
            var first := ConnectStep(w.conn, p, user, password);
            && r.conn.server.log == w.conn.server.log + [Event.Connect(p.host, p.port, user, password), Event.Connect(p.host, p.port, user, password)]
            && r.waits == w.waits + (if first.link.None? then [seconds] else [])
            && r.fs == w.fs && r.exitCode == w.exitCode
            && r.conn.server.databases == w.conn.server.databases
            && r.conn.server.failures == w.conn.server.failures
  {
    var w1 := Attempt(w, p, user, password);
    ConnectRules(w.conn, p, user, password);
    var w2 := if w1.conn.link.None? then Wait(w1, seconds) else w1;
    ConnectRules(w2.conn, p, user, password);
  }

  // ---------------------------------------------------------------------------
  // import()

  /** With `--no-file` nothing is selected, sent or written. */
  lemma NoFileImport(w: World, p: Props, u: Setup)
    requires u.file.NoFile?
    ensures ImportSpec(w, p, u) == (w, "Blank database is ready.")
  {
    MessageBlankReady();
  }

  /**
   * import() selects the database, then sends the dump's statements up to and
   * including the first the engine rejects. The lock file is written, and
   * success reported, exactly when no statement is rejected; a rejection is
   * reported with the engine's error text.
   */
  lemma ImportRule(w: World, p: Props, u: Setup)
    requires !u.file.NoFile? && w.conn.link.Some?
    ensures var (r, msg) := ImportSpec(w, p, u);
            var db := Text(p.database);
            var k := w.conn.link.value;
            var stmts := Statements(DumpLines(w.fs, u.file));
            var bad := FirstFailure(stmts, w.conn.server.failures);
            var sent := if bad < |stmts| then stmts[..bad + 1] else stmts;
            && r.conn.server.log == w.conn.server.log + [Event.SelectDb(k, db)] + Queries(k, sent)
            && r.conn.server.databases == w.conn.server.databases
            && r.conn.link == w.conn.link
            && r.exitCode == w.exitCode && r.waits == w.waits
            && (bad < |stmts| ==> msg == Message(w.conn.server.failures[stmts[bad]]) && r.fs == w.fs)
            && (bad == |stmts| ==> msg == Message(SuccessText(db)) && r.fs == WriteLock(w.fs, u.lockFile, db))
  {
    var k := w.conn.link.value;
    var db := Text(p.database);
    var s1 := SelectDatabase(w.conn.server, k, db);
    assert s1.log == w.conn.server.log + [Event.SelectDb(k, db)];
    assert s1.failures == w.conn.server.failures && s1.databases == w.conn.server.databases;
    var stmts := Statements(DumpLines(w.fs, u.file));
    ExecAllRunsPrefix(s1, k, stmts);
    var (s2, err) := ExecAll(s1, k, stmts);
    var bad := FirstFailure(stmts, w.conn.server.failures);
    var sent := if bad < |stmts| then stmts[..bad + 1] else stmts;
    assert stmts[..|stmts|] == stmts;
    assert s2.log == s1.log + Queries(k, sent);
    assert s2.databases == w.conn.server.databases;
    var w1 := w.(conn := w.conn.(server := s2));
    if err.Some? {
      assert bad < |stmts| && err.value == w.conn.server.failures[stmts[bad]];
      assert ImportSpec(w, p, u) == (w1, Message(err.value));
    } else {
      assert bad == |stmts|;
      assert ImportSpec(w, p, u) == (w1.(fs := WriteLock(w.fs, u.lockFile, db)), Message(SuccessText(db)));
    }
  }

  /** import() only appends to the server's log, and either leaves the files alone or writes the lock file with the database name and reports success. */
  lemma ImportFiles(w: World, p: Props, u: Setup)
    requires u.file.NoFile? || w.conn.link.Some?
    ensures var r := ImportSpec(w, p, u).0;
            && w.conn.server.log <= r.conn.server.log
            && (|| r.fs == w.fs
                || (r.fs == WriteLock(w.fs, u.lockFile, Text(p.database)) && ImportSpec(w, p, u).1 == Message(SuccessText(Text(p.database)))))
            && r.exitCode == w.exitCode
            && Capitalized(ImportSpec(w, p, u).1)
  {
    if !u.file.NoFile? {
      var k := w.conn.link.value;
      var s1 := SelectDatabase(w.conn.server, k, Text(p.database));
      var stmts := Statements(DumpLines(w.fs, u.file));
      ExecAllRunsPrefix(s1, k, stmts);
      var (s2, err) := ExecAll(s1, k, stmts);
      if err.Some? {
        UcfirstCapitalizes(err.value);
      } else {
        UcfirstCapitalizes(SuccessText(Text(p.database)));
      }
    } else {
      UcfirstCapitalizes("blank database is ready.");
    }
  }

  // ---------------------------------------------------------------------------
  // The user path

  /** The user path is taken only with a truthy user and password, and declines exactly when they are missing or the second connect fails. */
  lemma UserPathDeclines(w: World, p: Props, u: Setup)
    ensures var (r, m) := TryUserSpec(w, p, u);
            && (!TruthyOpt(p.user) || !TruthyOpt(p.password) ==> r == w && m.None?)
            && (TruthyOpt(p.user) && TruthyOpt(p.password) ==>
                  var w1 := TwoAttempts(w, p, p.user.value, p.password, 10);
                  (m.None? <==> w1.conn.link.None?) && (m.None? ==> r == w1))
  {
  }

  /**
   * The user path's probes: a LIKE probe, a CREATE only when the probe finds
   * no match, then the blank check on the database itself. A database the
   * path has just created is blank.
   */
  lemma UserProbesRule(w1: World, p: Props)
    requires w1.conn.link.Some?
    ensures var (c3, blank) := UserProbes(w1, p);
            var db := Text(p.database);
            var k := w1.conn.link.value;
            var s := w1.conn.server;
            var found := exists d :: d in s.databases && Like(d, db);
            var probes := [Event.SelectDb(k, db), Query(k, ShowTablesSql)];
            && c3.link == w1.conn.link
            && s.log + [Query(k, ExistsSql(db))] <= c3.server.log
            && (found ==> c3.server.log == s.log + [Query(k, ExistsSql(db))] + probes)
            && (!found ==> c3.server.log == s.log + [Query(k, ExistsSql(db)), Query(k, CreateSql(db))] + probes)
            && (db in s.databases ==> (blank <==> s.databases[db] == 0))
            && (!found && CreateSql(db) !in s.failures ==> blank)
  {
    ExistsMatchesPattern(w1.conn, p);
    var (c1, found) := ExistsStep(w1.conn, p);
    var c2 := if found then c1 else CreateStep(c1, p).0;
    if !found {
      CreateIssuesOneStatement(c1, p);
    }
    BlankSelectsThenLists(c2, p);
  }

  /** With a link, the user path probes first, refuses a non-blank database unless forced, and imports otherwise. */
  lemma UserPathImports(w: World, p: Props, u: Setup)
    requires TruthyOpt(p.user) && TruthyOpt(p.password)
    requires TwoAttempts(w, p, p.user.value, p.password, 10).conn.link.Some?
    ensures var w1 := TwoAttempts(w, p, p.user.value, p.password, 10);
            var db := Text(p.database);
            var k := w1.conn.link.value;
            var (r, m) := TryUserSpec(w, p, u);
            && m.Some?
            && w1.conn.server.log + [Query(k, ExistsSql(db))] <= r.conn.server.log
            && (db in w1.conn.server.databases && w1.conn.server.databases[db] > 0 && !u.force
                ==> m == Some("Required blank database for import.") && r.exitCode == 0 && r.fs == w.fs)
  {
    var w1 := TwoAttempts(w, p, p.user.value, p.password, 10);
    TwoAttemptsRule(w, p, p.user.value, p.password, 10);
    UserProbesRule(w1, p);
    var (c3, blank) := UserProbes(w1, p);
    var w2 := w1.(conn := c3);
    MessageNotBlank();
    if !blank && !u.force {
      assert TryUserSpec(w, p, u) == (NotBlank(w2).0, Some(NotBlank(w2).1));
    } else {
      ImportFiles(w2, p, u);
      assert TryUserSpec(w, p, u) == (ImportSpec(w2, p, u).0, Some(ImportSpec(w2, p, u).1));
    }
  }

  /**
   * Once connected, the user path imports when forced, when the database
   * exists with no tables, or when the probe matched nothing and CREATE was
   * accepted (a database just created is blank).
   */
  lemma UserImportsBlankOrForced(w: World, p: Props, u: Setup)
    requires TruthyOpt(p.user) && TruthyOpt(p.password)
    requires var w1 := TwoAttempts(w, p, p.user.value, p.password, 10);
             var s := w1.conn.server;
             var db := Text(p.database);
             && w1.conn.link.Some?
             && (|| u.force
                 || (db in s.databases && s.databases[db] == 0)
                 || ((forall d :: d in s.databases ==> !Like(d, db)) && CreateSql(db) !in s.failures))
    ensures var w1 := TwoAttempts(w, p, p.user.value, p.password, 10);
            var w2 := w1.(conn := UserProbes(w1, p).0);
            TryUserSpec(w, p, u) == (ImportSpec(w2, p, u).0, Some(ImportSpec(w2, p, u).1))
  {
    var w1 := TwoAttempts(w, p, p.user.value, p.password, 10);
    UserProbesRule(w1, p);
  }

  /**
   * Accepted credentials, a database the probe does not find, an accepted
   * CREATE and a dump whose every statement is accepted: the user path
   * reports success, the database exists and the lock file names it.
   */
  lemma UserPathImportsNewDatabase(w: World, p: Props, u: Setup)
    requires TruthyOpt(p.user) && TruthyOpt(p.password)
    requires TwoAttempts(w, p, p.user.value, p.password, 10).conn.link.Some?
    requires u.file.Path? && u.file.path in w.fs
    requires var s := w.conn.server;
             var db := Text(p.database);
             var stmts := Statements(w.fs[u.file.path]);
             && (forall d :: d in s.databases ==> !Like(d, db))
             && CreateSql(db) !in s.failures
             && (forall i :: 0 <= i < |stmts| ==> stmts[i] !in s.failures)
    ensures var (r, m) := TryUserSpec(w, p, u);
            var db := Text(p.database);
            && m == Some("Database named '" + db + "' successfully imported.")
            && r.fs == WriteLock(w.fs, u.lockFile, db)
            && db in r.conn.server.databases
            && r.exitCode == w.exitCode
  {
    var db := Text(p.database);
    var w1 := TwoAttempts(w, p, p.user.value, p.password, 10);
    TwoAttemptsRule(w, p, p.user.value, p.password, 10);
    UserImportsBlankOrForced(w, p, u);
    var (c1, found) := ExistsStep(w1.conn, p);
    ExistsMatchesPattern(w1.conn, p);
    var (c2, ok) := CreateStep(c1, p);
    CreateIssuesOneStatement(c1, p);
    var (c3, blank) := BlankStep(c2, p);
    BlankSelectsThenLists(c2, p);
    assert (c3, blank) == UserProbes(w1, p);
    var w2 := w1.(conn := c3);
    ImportRule(w2, p, u);
    var stmts := Statements(DumpLines(w2.fs, u.file));
    assert FirstFailure(stmts, w2.conn.server.failures) == |stmts|;
    MessageSuccess(db);
  }

  /**
   * The user path's answer reads as false only when it is the session's error
   * text after a rejected statement, and that text is "" or "0".
   */
  lemma UserPathFalsyAnswer(w: World, p: Props, u: Setup)
    ensures var (r, m) := TryUserSpec(w, p, u);
            m.Some? && !Truthy(m.value) ==>
              && r.conn.link.Some?
              && m.value == r.conn.server.ErrorOf(r.conn.link.value)
              && (m.value == "" || m.value == "0")
  {
    if TruthyOpt(p.user) && TruthyOpt(p.password) {
      var w1 := TwoAttempts(w, p, p.user.value, p.password, 10);
      if w1.conn.link.Some? {
        UserProbesRule(w1, p);
        var (c3, blank) := UserProbes(w1, p);
        var w2 := w1.(conn := c3);
        if !blank && !u.force {
          MessageNotBlank();
        } else {
          ImportFalsyAnswer(w2, p, u);
        }
      }
    }
  }

  /** import()'s message reads as false only when it is the session's error text after a rejected statement, "" or "0". */
  lemma ImportFalsyAnswer(w: World, p: Props, u: Setup)
    requires u.file.NoFile? || w.conn.link.Some?
    ensures var (r, m) := ImportSpec(w, p, u);
            !Truthy(m) ==> r.conn.link.Some? && m == r.conn.server.ErrorOf(r.conn.link.value) && (m == "" || m == "0")
  {
    if u.file.NoFile? {
      MessageBlankReady();
    } else {
      var k := w.conn.link.value;
      var s1 := SelectDatabase(w.conn.server, k, Text(p.database));
      var stmts := Statements(DumpLines(w.fs, u.file));
      ExecAllReportsSessionError(s1, k, stmts);
      var (s2, err) := ExecAll(s1, k, stmts);
      if err.Some? {
        UcfirstFalsy(err.value);
      } else {
        MessageSuccess(Text(p.database));
      }
    }
  }

  /** The user path leaves the files alone or writes the lock file; its exit code stays or becomes 0; its message is capitalised. */
  lemma UserPathOutcome(w: World, p: Props, u: Setup)
    ensures var r := TryUserSpec(w, p, u).0;
            && (|| r.fs == w.fs
                || (r.fs == WriteLock(w.fs, u.lockFile, Text(p.database)) && TryUserSpec(w, p, u).1 == Some(Message(SuccessText(Text(p.database))))))
            && (r.exitCode == w.exitCode || r.exitCode == 0)
            && (TryUserSpec(w, p, u).1.Some? ==> Capitalized(TryUserSpec(w, p, u).1.value))
  {
    if TruthyOpt(p.user) && TruthyOpt(p.password) {
      var w1 := TwoAttempts(w, p, p.user.value, p.password, 10);
      TwoAttemptsRule(w, p, p.user.value, p.password, 10);
      if w1.conn.link.Some? {
        UserProbesRule(w1, p);
        var (c3, blank) := UserProbes(w1, p);
        var w2 := w1.(conn := c3);
        if !blank && !u.force {
          UcfirstCapitalizes("required blank database for import.");
          assert TryUserSpec(w, p, u) == (NotBlank(w2).0, Some(NotBlank(w2).1));
        } else {
          ImportFiles(w2, p, u);
          assert TryUserSpec(w, p, u) == (ImportSpec(w2, p, u).0, Some(ImportSpec(w2, p, u).1));
        }
      }
    }
  }

  // ---------------------------------------------------------------------------
  // The root path

  /** Without a truthy root password the root path does nothing but say so. */
  lemma RootPathNeedsPassword(w: World, p: Props, u: Setup)
    requires !TruthyOpt(p.rootPassword)
    ensures TryRootSpec(w, p, u) == (w, "Required at least root password.")
  {
    MessageNoRootPassword();
  }

  /** A second failed connect as root is reported with the client's last connect error and exit code 1. */
  lemma RootConnectionProblem(w: World, p: Props, u: Setup)
    requires TruthyOpt(p.rootPassword)
    requires TwoAttempts(w, p, "root", p.rootPassword, 10).conn.link.None?
    ensures var w1 := TwoAttempts(w, p, "root", p.rootPassword, 10);
            var (r, msg) := TryRootSpec(w, p, u);
            && r.exitCode == 1 && r.fs == w.fs && r.conn == w1.conn
            && msg == Message(ConnectionProblemText("root", Text(p.host), w1.conn.server.connectError, w1.conn.server.connectErrno))
  {
    var w1 := TwoAttempts(w, p, "root", p.rootPassword, 10);
    TwoAttemptsRule(w, p, "root", p.rootPassword, 10);
    assert TryRootSpec(w, p, u) == ConnectionProblem(w1, p, "root");
  }

  /** An existing, non-blank database is refused unless forced: exit code 0, nothing sent after the probes, no lock file. */
  lemma RootRefusesNonBlank(w: World, p: Props, u: Setup)
    requires TruthyOpt(p.rootPassword) && !u.force
    requires var w1 := TwoAttempts(w, p, "root", p.rootPassword, 10);
             w1.conn.link.Some? && Text(p.database) in w1.conn.server.databases && w1.conn.server.databases[Text(p.database)] > 0
    ensures var w1 := TwoAttempts(w, p, "root", p.rootPassword, 10);
            var db := Text(p.database);
            var k := w1.conn.link.value;
            var (r, msg) := TryRootSpec(w, p, u);
            && msg == "Required blank database for import."
            && r.exitCode == 0 && r.fs == w.fs
            && r.conn.server.log == w1.conn.server.log + [Query(k, ExistsSql(db)), Event.SelectDb(k, db), Query(k, ShowTablesSql)]
            && r.conn.server.databases == w.conn.server.databases
  {
    var w1 := TwoAttempts(w, p, "root", p.rootPassword, 10);
    TwoAttemptsRule(w, p, "root", p.rootPassword, 10);
    ExistsMatchesPattern(w1.conn, p);
    var (c1, found) := ExistsStep(w1.conn, p);
    assert found;
    BlankSelectsThenLists(c1, p);
    var (c2, blank) := BlankStep(c1, p);
    assert !blank;
    MessageNotBlank();
    assert TryRootSpec(w, p, u) == NotBlank(w1.(conn := c2));
  }

  /** An existing database that has no tables, or any existing one under `--force`, is imported right after the probes. */
  lemma RootImportsBlankOrForced(w: World, p: Props, u: Setup)
    requires TruthyOpt(p.rootPassword)
    requires var w1 := TwoAttempts(w, p, "root", p.rootPassword, 10);
             var db := Text(p.database);
             && w1.conn.link.Some? && db in w1.conn.server.databases
             && (w1.conn.server.databases[db] == 0 || u.force)
    ensures var w1 := TwoAttempts(w, p, "root", p.rootPassword, 10);
            var db := Text(p.database);
            var k := w1.conn.link.value;
            var c2 := BlankStep(ExistsStep(w1.conn, p).0, p).0;
            && c2.link == w1.conn.link
            && c2.server.log == w1.conn.server.log + [Query(k, ExistsSql(db)), Event.SelectDb(k, db), Query(k, ShowTablesSql)]
            && c2.server.databases == w1.conn.server.databases
            && TryRootSpec(w, p, u) == ImportSpec(w1.(conn := c2), p, u)
  {
    var w1 := TwoAttempts(w, p, "root", p.rootPassword, 10);
    ExistsMatchesPattern(w1.conn, p);
    var (c1, found) := ExistsStep(w1.conn, p);
    BlankSelectsThenLists(c1, p);
  }

  /** A database the LIKE probe does not find is created with one CREATE DATABASE; if it fails, its error text is the message. */
  lemma RootCreateFailure(w: World, p: Props, u: Setup)
    requires TruthyOpt(p.rootPassword)
    requires var w1 := TwoAttempts(w, p, "root", p.rootPassword, 10);
             && w1.conn.link.Some?
             && (forall d :: d in w1.conn.server.databases ==> !Like(d, Text(p.database)))
             && CreateSql(Text(p.database)) in w1.conn.server.failures
    ensures var (r, msg) := TryRootSpec(w, p, u);
            var w1 := TwoAttempts(w, p, "root", p.rootPassword, 10);
            var k := w1.conn.link.value;
            var db := Text(p.database);
            && r.conn.server.log == w1.conn.server.log + [Query(k, ExistsSql(db)), Query(k, CreateSql(db))]
            && msg == Message(w.conn.server.failures[CreateSql(db)])
            && r.exitCode == w.exitCode && r.fs == w.fs
            && r.conn.server.databases == w.conn.server.databases
  {
    var w1 := TwoAttempts(w, p, "root", p.rootPassword, 10);
    TwoAttemptsRule(w, p, "root", p.rootPassword, 10);
    ExistsMatchesPattern(w1.conn, p);
    var (c1, found) := ExistsStep(w1.conn, p);
    assert !found;
    CreateIssuesOneStatement(c1, p);
    var (c2, ok) := CreateStep(c1, p);
    assert !ok;
    assert TryRootSpec(w, p, u) == (w1.(conn := c2), Message(c2.server.ErrorOf(c2.link.value)));
  }

  /** A database the LIKE probe does not find is created, and a successful CREATE is followed by the import. */
  lemma RootCreatesThenImports(w: World, p: Props, u: Setup)
    requires TruthyOpt(p.rootPassword)
    requires var w1 := TwoAttempts(w, p, "root", p.rootPassword, 10);
             && w1.conn.link.Some?
             && (forall d :: d in w1.conn.server.databases ==> !Like(d, Text(p.database)))
             && CreateSql(Text(p.database)) !in w1.conn.server.failures
    ensures var w1 := TwoAttempts(w, p, "root", p.rootPassword, 10);
            var (c1, _) := ExistsStep(w1.conn, p);
            var (c2, _) := CreateStep(c1, p);
            && Text(p.database) in c2.server.databases
            && TryRootSpec(w, p, u) == ImportSpec(w1.(conn := c2), p, u)
  {
    var w1 := TwoAttempts(w, p, "root", p.rootPassword, 10);
    ExistsMatchesPattern(w1.conn, p);
    var (c1, found) := ExistsStep(w1.conn, p);
    CreateIssuesOneStatement(c1, p);
  }

  /** The root path leaves the files alone or writes the lock file; its exit code stays, becomes 0 or 1; its message is capitalised. */
  lemma RootPathOutcome(w: World, p: Props, u: Setup)
    ensures var r := TryRootSpec(w, p, u).0;
            && (|| r.fs == w.fs
                || (r.fs == WriteLock(w.fs, u.lockFile, Text(p.database)) && TryRootSpec(w, p, u).1 == Message(SuccessText(Text(p.database)))))
            && (r.exitCode == w.exitCode || r.exitCode == 0 || r.exitCode == 1)
            && Capitalized(TryRootSpec(w, p, u).1)
  {
    if !TruthyOpt(p.rootPassword) {
      UcfirstCapitalizes("required at least root password.");
    } else {
      var w1 := TwoAttempts(w, p, "root", p.rootPassword, 10);
      TwoAttemptsRule(w, p, "root", p.rootPassword, 10);
      if w1.conn.link.None? {
        var s := w1.conn.server;
        UcfirstCapitalizes(ConnectionProblemText("root", Text(p.host), s.connectError, s.connectErrno));
      } else {
        RootFoundOutcome(w, p, u);
      }
    }
  }

  lemma RootFoundOutcome(w: World, p: Props, u: Setup)
    requires TruthyOpt(p.rootPassword) && TwoAttempts(w, p, "root", p.rootPassword, 10).conn.link.Some?
    ensures var r := TryRootSpec(w, p, u).0;
            var w1 := TwoAttempts(w, p, "root", p.rootPassword, 10);
            && (|| r.fs == w1.fs
                || (r.fs == WriteLock(w1.fs, u.lockFile, Text(p.database)) && TryRootSpec(w, p, u).1 == Message(SuccessText(Text(p.database)))))
            && (r.exitCode == w1.exitCode || r.exitCode == 0)
            && Capitalized(TryRootSpec(w, p, u).1)
  {
    var w1 := TwoAttempts(w, p, "root", p.rootPassword, 10);
    var (c1, found) := ExistsStep(w1.conn, p);
    if found {
      var (c2, blank) := BlankStep(c1, p);
      if blank || u.force {
        ImportFiles(w1.(conn := c2), p, u);
      } else {
        UcfirstCapitalizes("required blank database for import.");
      }
    } else {
      var (c2, ok) := CreateStep(c1, p);
      if ok {
        ImportFiles(w1.(conn := c2), p, u);
      } else {
        UcfirstCapitalizes(c2.server.ErrorOf(c2.link.value));
      }
    }
  }

  // ---------------------------------------------------------------------------
  // run()

  /** A truthy unknown option stops run() at once: exit code 2, nothing connected, nothing touched. */
  lemma RunRejectsUnknownOption(w: World, p: Props, u: Setup)
    requires TruthyOpt(u.unknownOption)
    ensures RunSpec(w, p, u) == (w.(exitCode := 2), "Unknown option '" + u.unknownOption.value + "'.")
  {
    MessageUnknownOption(u.unknownOption.value);
  }

  /** Without a dump to read, run() stops before any credentials are tried, with exit code unchanged. */
  lemma RunNeedsDump(w: World, p: Props, u: Setup)
    requires !TruthyOpt(u.unknownOption) && !u.doWhile
    ensures NoDumpNamed(u) ==> RunSpec(w, p, u) == (w, "Required sql file to import.")
    ensures !NoDumpNamed(u) && u.file.Path? && u.file.path !in w.fs
            ==> RunSpec(w, p, u) == (w, "Sql file '" + u.file.path + "' not found.")
  {
    if u.file.Path? {
      MessageFileNotFound(u.file.path);
    }
    MessageNoDump();
  }

  /** `--do-while` makes one connect as root and one five-second pause before the checks. */
  lemma RunWaitsForServer(w: World, p: Props, u: Setup)
    requires !TruthyOpt(u.unknownOption) && u.doWhile
    ensures var w1 := PreChecked(w, p, u);
            && w1.conn.server.log == w.conn.server.log + [Event.Connect(p.host, p.port, "root", p.rootPassword)]
            && w1.waits == w.waits + [5]
            && (NoDumpNamed(u) ==> RunSpec(w, p, u) == (w1, "Required sql file to import."))
  {
    ConnectRules(w.conn, p, "root", p.rootPassword);
    MessageNoDump();
  }

  /**
   * Once the checks pass, the stale lock file is gone and the user path runs.
   * Its answer is final, with no root connect after it, unless the path
   * declined, or the answer is the session's error text after a rejected
   * statement and reads as false ("" or "0"); then the root path runs.
   */
  lemma RunFallsThrough(w: World, p: Props, u: Setup)
    requires !TruthyOpt(u.unknownOption) && !NoDumpNamed(u)
    requires u.file.NoFile? || u.file.path in PreChecked(w, p, u).fs
    ensures var w1 := PreChecked(w, p, u);
            var w2 := if u.lockFile.Path? && u.lockFile.path in w1.fs then w1.(fs := w1.fs - {u.lockFile.path}) else w1;
            var (w3, m) := TryUserSpec(w2, p, u);
            && (u.lockFile.Path? ==> u.lockFile.path !in w2.fs)
            && (m.None? ==> RunSpec(w, p, u) == TryRootSpec(w3, p, u))
            && (m.Some? ==> || RunSpec(w, p, u) == (w3, m.value)
                            || (&& RunSpec(w, p, u) == TryRootSpec(w3, p, u)
                                && w3.conn.link.Some? && m.value == w3.conn.server.ErrorOf(w3.conn.link.value)
                                && (m.value == "" || m.value == "0")))
  {
    var w1 := PreChecked(w, p, u);
    var w2 := if u.lockFile.Path? && u.lockFile.path in w1.fs then w1.(fs := w1.fs - {u.lockFile.path}) else w1;
    UserPathFalsyAnswer(w2, p, u);
  }

  /**
   * A whole successful run on the user path: accepted credentials, a database
   * the probe does not find, an accepted CREATE, every statement accepted.
   * The database then exists, the lock file names it, and success is reported.
   */
  lemma RunImportsIntoNewDatabase(w: World, p: Props, u: Setup)
    requires !TruthyOpt(u.unknownOption) && !u.doWhile
    requires u.file.Path? && Truthy(u.file.path) && u.file.path in w.fs
    requires u.lockFile.Path? && u.lockFile.path != u.file.path
    requires TruthyOpt(p.user) && TruthyOpt(p.password)
    requires TwoAttempts(w, p, p.user.value, p.password, 10).conn.link.Some?
    requires var s := w.conn.server;
             var db := Text(p.database);
             var stmts := Statements(w.fs[u.file.path]);
             && (forall d :: d in s.databases ==> !Like(d, db))
             && CreateSql(db) !in s.failures
             && (forall i :: 0 <= i < |stmts| ==> stmts[i] !in s.failures)
    ensures var (r, msg) := RunSpec(w, p, u);
            var db := Text(p.database);
            && msg == "Database named '" + db + "' successfully imported."
            && r.fs == w.fs[u.lockFile.path := [db]]
            && db in r.conn.server.databases
            && r.exitCode == w.exitCode
  {
    var db := Text(p.database);
    var w2 := if u.lockFile.path in w.fs then w.(fs := w.fs - {u.lockFile.path}) else w;
    assert TwoAttempts(w2, p, p.user.value, p.password, 10).conn == TwoAttempts(w, p, p.user.value, p.password, 10).conn;
    assert w2.fs[u.file.path] == w.fs[u.file.path];
    UserPathImportsNewDatabase(w2, p, u);
    var (r, m) := TryUserSpec(w2, p, u);
    assert Truthy(m.value);
    assert RunSpec(w, p, u) == (r, m.value);
    assert r.fs == w.fs[u.lockFile.path := [db]] by {
      assert w2.fs[u.lockFile.path := [db]] == w.fs[u.lockFile.path := [db]];
    }
  }

  /** Exit code 2 exactly for an unknown option, 1 only from the root path, 0 otherwise; every message capitalised. */
  lemma RunExitCode(w: World, p: Props, u: Setup)
    requires w.exitCode == 0
    ensures var (r, msg) := RunSpec(w, p, u);
            && (r.exitCode == 0 || r.exitCode == 1 || r.exitCode == 2)
            && (r.exitCode == 2 <==> TruthyOpt(u.unknownOption))
            && Capitalized(msg)
  {
    if TruthyOpt(u.unknownOption) {
      MessageUnknownOption(u.unknownOption.value);
    } else {
      var w1 := PreChecked(w, p, u);
      if NoDumpNamed(u) {
        UcfirstCapitalizes("required sql file to import.");
      } else if u.file.Path? && u.file.path !in w1.fs {
        UcfirstCapitalizes("sql file '" + u.file.path + "' not found.");
      } else {
        var w2 := if u.lockFile.Path? && u.lockFile.path in w1.fs then w1.(fs := w1.fs - {u.lockFile.path}) else w1;
        UserPathOutcome(w2, p, u);
        RootPathOutcome(TryUserSpec(w2, p, u).0, p, u);
      }
    }
  }

  /** After run(), a lock file at the lock path exists only if this run wrote it after a successful import, and then it names the database. */
  lemma RunLeavesNoStaleLock(w: World, p: Props, u: Setup)
    requires !TruthyOpt(u.unknownOption) && !NoDumpNamed(u) && u.file.Path? && u.lockFile.Path?
    requires u.file.path in PreChecked(w, p, u).fs
    ensures var (r, msg) := RunSpec(w, p, u);
            u.lockFile.path in r.fs ==> r.fs[u.lockFile.path] == [Text(p.database)] && msg == Message(SuccessText(Text(p.database)))
  {
    var w1 := PreChecked(w, p, u);
    var w2 := if u.lockFile.path in w1.fs then w1.(fs := w1.fs - {u.lockFile.path}) else w1;
    assert u.lockFile.path !in w2.fs;
    var (w3, m) := TryUserSpec(w2, p, u);
    UserPathOutcome(w2, p, u);
    MessageSuccess(Text(p.database));
    if m.Some? && Truthy(m.value) {
      assert RunSpec(w, p, u) == (w3, m.value);
    } else {
      assert RunSpec(w, p, u) == TryRootSpec(w3, p, u);
      assert w3.fs == w2.fs;
      RootPathOutcome(w3, p, u);
    }
  }
}
