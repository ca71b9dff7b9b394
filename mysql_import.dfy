/**
 * The importer itself: a command object built from the environment and the
 * command-line arguments, whose run() connects, probes, creates and imports.
 * The importer extends the adapter in the original; here it holds one (`db`)
 * and reaches into its fields the way the subclass does. Every method is
 * proved to follow the value-level functions of Settings and Orchestrator.
 */
module Importer {
  import opened Php
  import opened Engine
  import opened Adapter
  import opened Settings
  import opened Splitter
  import opened Orchestrator

  class MysqlImport {
    /** The inherited part: settings, link and the server behind it. */
    const db: DatabaseAdapter

    var file: FileArg
    var lockFile: FileArg
    var exitCode: int
    var doWhile: bool
    var force: bool
    var unknownOption: Option<string>

    /** The files the importer sees, and the pauses the loader has made, in seconds. */
    var fs: map<string, seq<string>>
    var waits: seq<nat>

    /** What the constructor decided. */
    function Configuration(): Setup
      reads this
    {
      Setup(Properties(db.Config()), file, lockFile, doWhile, force, unknownOption)
    }

    /** Everything run() can change. */
    function State(): World
      reads this, db
    {
      World(db.State(), fs, waits, exitCode)
    }

    /**
     * Resolves the settings in the order of the original: the two flags, the
     * option table row by row (default, aliases, last prefixed token), the
     * dump, and the first token left over.
     */
    constructor (env: map<string, string>, argv: seq<string>, server: Server, files: map<string, seq<string>>)
      ensures Configuration() == Resolve(env, argv)
      ensures State() == World(Conn(None, None, false, None, server), files, [], 0)
      ensures fresh(db)
    {
      exitCode := 0;
      var a2, w, f := TakeFlags(argv);
      doWhile, force := w, f;
      var properties, a3 := ResolveOptions(env, a2, OptTable(DefaultDatabase(env)));
      db := new DatabaseAdapter(properties, server);
      var chosen, chosenLock, a4 := ChooseFile(a3);
      file, lockFile := chosen, chosenLock;
      unknownOption := if a4 == [] then None else Some(a4[0]);
      fs := files;
      waits := [];
      new;
      ResolveInSteps(env, argv, Strip(argv, "--do-while"), a2, properties, a3, file, lockFile, a4);
      TableKeys(env, a2, DefaultDatabase(env));
      PropertiesRoundTrip(properties, db.Config());
    }

    /** `--do-while` and `--force`: each sets its flag and is removed wherever it occurs. */
    static method TakeFlags(argv: seq<string>) returns (rest: seq<string>, doWhile: bool, force: bool)
      ensures rest == Strip(Strip(argv, "--do-while"), "--force")
      ensures doWhile == ("--do-while" in argv) && force == ("--force" in Strip(argv, "--do-while"))
    {
      rest, doWhile, force := argv, false, false;
      if "--do-while" in rest {
        rest := Without(rest, ["--do-while"]);
        doWhile := true;
      }
      if "--force" in rest {
        rest := Without(rest, ["--force"]);
        force := true;
      }
    }

    /** The option table, row by row: default, then every alias, then the last token carrying the row's prefix. */
    static method ResolveOptions(env: map<string, string>, argv: seq<string>, opts: seq<Opt>)
      returns (properties: map<string, Option<string>>, rest: seq<string>)
      ensures (properties, rest) == ResolveOpts(env, argv, opts)
    {
      properties, rest := map[], argv;
      var k := 0;
      while k < |opts|
        invariant 0 <= k <= |opts|
        invariant (properties, rest) == ResolveOpts(env, argv, opts[..k])
      {
        var o := opts[k];
        var value := FromEnvironment(env, o);
        if TruthyOpt(o.flag) {
          var matched := Grep(rest, o.flag.value);
          if matched != [] {
            value := Some(matched[|matched| - 1][|o.flag.value|..]);
            rest := Without(rest, matched);
          }
        }
        assert opts[..k + 1][..k] == opts[..k];
        properties := properties[o.name := value];
        k := k + 1;
      }
      assert opts[..k] == opts;
    }

    /** A row's default, overwritten by each alias in turn that is set and truthy. */
    static method FromEnvironment(env: map<string, string>, o: Opt) returns (value: Option<string>)
      ensures value == EnvValue(env, o.aliases, o.default)
    {
      value := o.default;
      var index := 0;
      while index < |o.aliases|
        invariant 0 <= index <= |o.aliases|
        invariant value == EnvValue(env, o.aliases[..index], o.default)
      {
        var key := o.aliases[index];
        value := if key in env && Truthy(env[key]) then Some(env[key]) else value;
        assert o.aliases[..index + 1][..index] == o.aliases[..index];
        index := index + 1;
      }
      assert o.aliases[..index] == o.aliases;
    }

    /** `--no-file`, or the first token not starting with `-`, trimmed, with its lock file. */
    static method ChooseFile(argv: seq<string>) returns (file: FileArg, lockFile: FileArg, rest: seq<string>)
      ensures (file, lockFile, rest) == PickFile(argv)
    {
      file, lockFile, rest := Unset, Unset, argv;
      if "--no-file" in argv {
        return NoFile, NoFile, Without(argv, ["--no-file"]);
      }
      var i := 0;
      while i < |argv|
        invariant 0 <= i <= |argv|
        invariant forall j :: 0 <= j < i ==> !NotDashFirst(argv[j])
      {
        if NotDashFirst(argv[i]) {
          KeepFirst(argv, x => NotDashFirst(x), i);
          return Path(Trim(argv[i])), Path(Trim(argv[i]) + ".lock"), Without(argv, [argv[i]]);
        }
        i := i + 1;
      }
      KeepNone(argv, x => NotDashFirst(x));
    }

    /** import(): select the database, send the dump statement by statement, stop at the first rejection. */
    method Import() returns (msg: string)
      requires file.NoFile? || db.link.Some?
      modifies this, db
      ensures Configuration() == old(Configuration())
      ensures (State(), msg) == ImportSpec(old(State()), db.Config(), Configuration())
    {
      if file.NoFile? {
        return Message("blank database is ready.");
      }
      var k := db.link.value;
      db.server := SelectDatabase(db.server, k, Text(db.database));
      var err := SendDump(k, DumpLines(fs, file));
      if err.Some? {
        return Message(err.value);
      }
      WriteLockFile();
      msg := Message(SuccessText(Text(db.database)));
    }

    /**
     * import()'s line loop: gather lines into a buffer, send it whenever a line
     * closes a statement, send a truthy leftover at the end, and stop at the
     * first statement the engine rejects, with that statement's error text.
     */
    method SendDump(k: nat, lines: seq<string>) returns (err: Option<string>)
      modifies db
      ensures (db.server, err) == ExecAll(old(db.server), k, Statements(lines))
      ensures db.State() == old(db.State()).(server := db.server)
    {
      var sql := "";
      var i := 0;
      while i < |lines|
        invariant 0 <= i <= |lines|
        invariant db.State() == old(db.State()).(server := db.server)
        invariant ExecAll(db.server, k, StatementsFrom(sql, lines[i..])) == ExecAll(old(db.server), k, Statements(lines))
      {
        var line := lines[i];
        assert lines[i..][0] == line && lines[i..][1..] == lines[i + 1..];
        StatementsFromStep(sql, lines[i..]);
        if Skipped(line) {
          i := i + 1;
          continue;
        }
        sql := sql + line;
        if EndsStatement(line) {
          ExecAllCons(db.server, k, sql, StatementsFrom("", lines[i + 1..]));
          var (s, ok) := Execute(db.server, k, sql);
          db.server := s;
          if !ok {
            return Some(db.server.ErrorOf(k));
          }
          sql := "";
        }
        i := i + 1;
      }
      assert lines[i..] == [];
      if Truthy(sql) {
        ExecAllCons(db.server, k, sql, []);
        var (s, ok) := Execute(db.server, k, sql);
        db.server := s;
        if !ok {
          return Some(db.server.ErrorOf(k));
        }
      }
      err := None;
    }

    /** writeLockFile(): the lock file now records the database name. */
    method WriteLockFile()
      modifies this
      ensures fs == WriteLock(old(fs), lockFile, Text(db.database))
      ensures file == old(file) && lockFile == old(lockFile) && exitCode == old(exitCode)
      ensures waits == old(waits) && doWhile == old(doWhile) && force == old(force)
      ensures unknownOption == old(unknownOption)
    {
      if lockFile.Path? {
        fs := fs[lockFile.path := [Text(db.database)]];
      }
    }

    method MessageDatabaseNotBlank() returns (msg: string)
      modifies this
      ensures (State(), msg) == NotBlank(old(State()))
      ensures Configuration() == old(Configuration())
    {
      exitCode := 0;
      msg := Message("required blank database for import.");
    }

    method MessageConnectionProblem(user: string) returns (msg: string)
      modifies this
      ensures (State(), msg) == ConnectionProblem(old(State()), db.Config(), user)
      ensures Configuration() == old(Configuration())
    {
      exitCode := 1;
      var message := db.server.connectError;
      var errorNumber := db.server.connectErrno;
      msg := Message(ConnectionProblemText(user, Text(db.host), message, errorNumber));
    }

    method MessageUnknownOption() returns (msg: string)
      modifies this
      ensures (State(), msg) == UnknownOption(old(State()), Configuration())
      ensures Configuration() == old(Configuration())
    {
      exitCode := 2;
      msg := Message("Unknown option '" + Text(unknownOption) + "'.");
    }

    /** The loader's pause, kept as its length in seconds. */
    method Waiting(seconds: nat)
      modifies this
      ensures State() == Wait(old(State()), seconds)
      ensures Configuration() == old(Configuration())
    {
      waits := waits + [seconds];
    }

    /** tryUserAndPassword(): None stands for `false`. */
    method TryUserAndPassword() returns (msg: Option<string>)
      modifies this, db
      ensures (State(), msg) == TryUserSpec(old(State()), db.Config(), Configuration())
      ensures Configuration() == old(Configuration())
    {
      if !TruthyOpt(db.user) || !TruthyOpt(db.password) {
        return None;
      }
      var l := db.Connect(db.user.value, db.password);
      if l.None? {
        Waiting(10);
      }
      l := db.Connect(db.user.value, db.password);
      if l.None? {
        return None;
      }
      ghost var w1 := State();
      var found := db.Exists();
      if !found {
        var _ := db.Create();
      }
      var blank := db.Blank();
      assert (db.State(), blank) == UserProbes(w1, db.Config());
      if !blank && !force {
        var m := MessageDatabaseNotBlank();
        return Some(m);
      }
      var m := Import();
      msg := Some(m);
    }

    /** tryRootPassword(). */
    method TryRootPassword() returns (msg: string)
      modifies this, db
      ensures (State(), msg) == TryRootSpec(old(State()), db.Config(), Configuration())
      ensures Configuration() == old(Configuration())
    {
      if !TruthyOpt(db.rootPassword) {
        return Message("required at least root password.");
      }
      var l := db.Connect("root", db.rootPassword);
      if l.None? {
        Waiting(10);
      }
      l := db.Connect("root", db.rootPassword);
      if l.None? {
        msg := MessageConnectionProblem("root");
        return;
      }
      var found := db.Exists();
      if found {
        var blank := db.Blank();
        if blank || force {
          msg := Import();
          return;
        }
        msg := MessageDatabaseNotBlank();
        return;
      }
      var created := db.Create();
      if created {
        msg := Import();
        return;
      }
      msg := Message(db.server.ErrorOf(db.link.value));
    }

    /** run(): the pre-checks, then the user path, falling through to the root path. */
    method Run() returns (msg: string)
      modifies this, db
      ensures (State(), msg) == RunSpec(old(State()), db.Config(), Configuration())
    {
      if TruthyOpt(unknownOption) {
        msg := MessageUnknownOption();
        return;
      }
      if doWhile {
        var _ := db.Connect("root", db.rootPassword);
        Waiting(5);
      }
      if file.Unset? || (file.Path? && !Truthy(file.path)) {
        return Message("required sql file to import.");
      }
      if file.Path? && file.path !in fs {
        return Message("sql file '" + file.path + "' not found.");
      }
      if lockFile.Path? && lockFile.path in fs {
        fs := fs - {lockFile.path};
      }
      var m := TryUserAndPassword();
      if m.Some? && Truthy(m.value) {
        return m.value;
      }
      msg := TryRootPassword();
    }

    function GetExitCode(): int
      reads this
    {
      exitCode
    }
  }
}
