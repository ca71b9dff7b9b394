# mysql-import, modelled in Dafny

`mysql-import` is a command-line tool that loads an SQL dump into a MySQL
database. It resolves its settings from the environment and the command line.
It then connects as the configured user, or else as root. It creates the
database when it is missing and refuses a database that already holds tables
unless `--force` is given. Finally it sends the dump statement by statement and
writes a lock file once every statement has been accepted.

This project models the two classes that hold that logic:

- `MysqlImport`: its constructor, `run`, `tryUserAndPassword`,
  `tryRootPassword`, `import`, the `message*` helpers and `getExitCode`.
- `DatabaseAdapter`: `connect`, `exists`, `blank`, `create`, `drop`, `getInfo`
  and the constructor that takes a property map.

Modules, one per file:

- `Php` (php.dfy): the PHP built-ins the decisions rest on. This covers string
  truthiness, `trim()`, `ucfirst()`, interpolation of null and of integers, and
  the loose `!= 'yes'` comparison.
- `Engine` (engine.dfy): the MySQL server and the mysqli client as the tool sees
  them. The state is a catalogue of databases with their table counts, a
  scripted sequence of connection outcomes (accepted, refused, or throwing) and
  an oracle of the statements the engine rejects with their error text. Every
  connect, database selection and query is appended to a log, so that the order
  of what the tool sends can be stated.
- `Adapter` (adapter.dfy): the class `DatabaseAdapter`, whose methods are proved
  to follow step functions on the value `Conn` of its fields. Lemmas state what
  each step promises.
- `Settings` (settings.dfy): the constructor's resolution of the six settings,
  the three flags, the dump and the unknown option, as the function `Resolve`.
  Lemmas characterise it setting by setting.
- `Splitter` (splitter.dfy): how `import()` cuts the dump's lines into
  statements (`Statements`) and sends them until the first rejection
  (`ExecAll`).
- `Orchestrator` (orchestrator.dfy): `run()` and its paths as functions on a
  `World`. A `World` holds the adapter's fields, the files, the pauses made and
  the exit code. Lemmas state the outcome of each path.
- `Importer` (mysql_import.dfy): the class `MysqlImport`. Its constructor and
  methods are written as the original's loops and field updates. Each is proved
  to end in the state, and with the message, that the `Settings` and
  `Orchestrator` functions give.

The server, the clock-free pauses and the filesystem are parameters of the
model. The constructor takes the server and a map from existing paths to their
lines, as `file()` returns them. A pause is recorded as its length in seconds.

The model follows the code as written, including these behaviours:

- `exists()` uses the database name as a `LIKE` pattern, so `_` and `%` match
  other names (`Engine.UnderscoreMatchesOtherNames`). It is not an
  exact-name lookup.
- A `host:port` value is not split. No setting falls back to another.
- `drop()` compares loosely, so boolean `true` and, under PHP 7, the integer 0
  pass the `'yes'` gate as well (`Adapter.DropNeedsYes`, `Adapter.DropZeroDrops`).
- A connect that throws keeps the previous link. It does not discard it.
- The `--do-while` loop makes one attempt and one pause. Its guard reads a
  property, `error`, that nothing assigns.
- Only the first argument left over is reported as unknown, and only when it is
  truthy. An earlier unrecognised token, or a leftover "0", changes which token
  is quoted, or suppresses the message.
- A user-path answer that reads as false, which can only be an engine error
  text "" or "0", does not end the run: the root path runs after it
  (`Orchestrator.RunFallsThrough`).
- The statement boundary trims both ends of the line. This agrees with trimming
  only the end, as `Splitter.EndsStatementIsTrailingTrim` shows.

## Model

| member | source | states |
|---|---|---|
| Php.DecimalValue | src/MysqlImport.php:304-307 | the error number prints as decimal digits that read back as the number itself; with `Php.Decimal` this fixes the text exactly |
| Php.Decimal | src/MysqlImport.php:304-307 | the error number prints as a non-empty run of decimal digits with no leading zero (only 0 itself starts with `0`), one digit exactly below ten |
| Php.UcfirstCapitalizes | src/MysqlImport.php:275-278 | message() keeps the length, puts the upper-case form of the first character first, changes nothing after it, never leaves a lower-case first letter, and is idempotent |
| Php.TrimIsInnerSlice | src/MysqlImport.php:115 | trim() returns a contiguous slice of its argument that neither starts nor ends with a blank, and every character cut off the ends is a blank |
| Php.TrimKeepsLastNonBlank | src/MysqlImport.php:251 | a line ending in a non-blank keeps that last character under trim() |
| Php.UcfirstFalsy | src/MysqlImport.php:275-278 | message() reads as false exactly when its text does ("" or "0"), and then returns that text unchanged |
| Php.Truthy | src/MysqlImport.php:91 | definition of PHP string truthiness ("" and "0" are false); used by every test of a setting, an option or a message |
| Php.Trim | src/MysqlImport.php:115 | definition of trim() with its default blanks; characterised by Php.TrimIsInnerSlice and Php.TrimKeepsLastNonBlank |
| Php.Ucfirst | src/MysqlImport.php:275-278 | definition of ucfirst(); characterised by Php.UcfirstCapitalizes and Php.UcfirstFalsy |
| Php.LooselyYes | src/DatabaseAdapter.php:142 | definition of PHP 7's loose `== 'yes'` for null, booleans, integers and strings; characterised by Adapter.DropNeedsYes |
| Engine.LikeSelf | src/DatabaseAdapter.php:97 | every name matches itself used as a LIKE pattern, wildcards included |
| Engine.LikeWithoutWildcards | src/DatabaseAdapter.php:97 | a pattern without `_` or `%` matches exactly the equal name, in both directions |
| Engine.UnderscoreMatchesOtherNames | src/DatabaseAdapter.php:97 | `my_db` as a pattern matches the different name `my-db` |
| Engine.Like | src/DatabaseAdapter.php:97 | definition of LIKE matching with `%` and `_`; characterised by Engine.LikeSelf, Engine.LikeWithoutWildcards and Engine.UnderscoreMatchesOtherNames |
| Adapter.PropertiesRoundTrip | src/MysqlImport.php:101-105 | a map holding exactly the six settings survives the adapter's constructor, and the six settings survive the trip back |
| Adapter.InfoOfProperties | src/DatabaseAdapter.php:154-161 | getInfo() gives back a property map that holds exactly host, port and database |
| Adapter.ConnectRules | src/DatabaseAdapter.php:75-88 | connect logs one attempt; an error is recorded exactly for a refused attempt, with its errno; an accepted attempt yields the new session; a throwing one keeps the old link; the catalogue is untouched |
| Adapter.ExistsMatchesPattern | src/DatabaseAdapter.php:95-100 | exists() is true iff some database matches the name as a LIKE pattern, always when the database itself exists; the row is cached; one query is logged |
| Adapter.BlankSelectsThenLists | src/DatabaseAdapter.php:107-116 | blank() selects the database before SHOW TABLES, and for an existing database is true iff it has no tables; the answer is cached |
| Adapter.CreateIssuesOneStatement | src/DatabaseAdapter.php:123-131 | create() sends exactly one CREATE DATABASE with utf8 and utf8_general_ci; it succeeds iff the engine accepts it, and then the database exists; on failure the engine's text is the session's error |
| Adapter.DropNeedsYes | src/DatabaseAdapter.php:140-149 | drop() does nothing unless its argument is loosely 'yes' (true, "yes" and the integer 0 pass; null, false, other integers, "YES" and "y" do not); otherwise it sends one DROP DATABASE, and a success removes the database |
| Adapter.DropZeroDrops | src/DatabaseAdapter.php:140-149 | drop(0) passes the gate, sends one DROP DATABASE, and when the engine accepts it the database is gone |
| Adapter.ConnectStep | src/DatabaseAdapter.php:75-88 | definition of connect() on the adapter's fields; characterised by Adapter.ConnectRules |
| Adapter.ExistsStep | src/DatabaseAdapter.php:95-100 | definition of exists(); characterised by Adapter.ExistsMatchesPattern |
| Adapter.BlankStep | src/DatabaseAdapter.php:107-116 | definition of blank(); characterised by Adapter.BlankSelectsThenLists |
| Adapter.CreateStep | src/DatabaseAdapter.php:123-131 | definition of create(); characterised by Adapter.CreateIssuesOneStatement |
| Adapter.DropStep | src/DatabaseAdapter.php:140-149 | definition of drop(); characterised by Adapter.DropNeedsYes and Adapter.DropZeroDrops |
| Adapter.DatabaseAdapter.constructor | src/MysqlImport.php:105 | the six settings are copied out of the property map, a missing key reading as null; there is no link yet |
| Adapter.DatabaseAdapter.Connect | src/DatabaseAdapter.php:75-88 | the fields become those ConnectStep gives, and the link is returned |
| Adapter.DatabaseAdapter.Exists | src/DatabaseAdapter.php:95-100 | the fields and the answer are those ExistsStep gives |
| Adapter.DatabaseAdapter.Blank | src/DatabaseAdapter.php:107-116 | the fields and the answer are those BlankStep gives |
| Adapter.DatabaseAdapter.Create | src/DatabaseAdapter.php:123-131 | the fields and the unchecked result are those CreateStep gives |
| Adapter.DatabaseAdapter.Drop | src/DatabaseAdapter.php:140-149 | the fields and the result are those DropStep gives; nothing changes without a loose 'yes' |
| Adapter.DatabaseAdapter.GetInfo | src/DatabaseAdapter.php:154-161 | the result has exactly the keys host, port and database, holds the constructor's values, and exposes no credential |
| Settings.EnvValueIsLastGiven | src/MysqlImport.php:86-92 | a setting's environment value is that of the last alias in the list that is set and truthy; with none, the default stays |
| Settings.Resolve | src/MysqlImport.php:58-125 | definition of everything the constructor decides; characterised by the Settings lemmas below, setting by setting |
| Settings.ResolveOptsRest | src/MysqlImport.php:84-102 | after the table, the tokens left are exactly those no row's prefix starts, in order; the rows set exactly their names |
| Settings.ResolveOptsValue | src/MysqlImport.php:84-102 | each row's value is decided by that row alone, on the tokens the earlier rows left, and no later row overwrites it |
| Settings.FlaggedByTable | src/MysqlImport.php:75-82 | a token is taken by some row exactly when it starts with `-h`, `-P`, `-d`, `-u` or `-p` |
| Settings.StripIsFilter | src/MysqlImport.php:63-71 | removing a flag removes every copy of it and keeps the other tokens in order |
| Settings.AfterFlags | src/MysqlImport.php:63-71 | after both flags, exactly the tokens that are neither flag remain, in order; `--force` is seen whether or not `--do-while` came first |
| Settings.AfterTable | src/MysqlImport.php:63-102 | after the flags and the table, the tokens left are those that are neither flag nor start with a setting's prefix |
| Settings.TablePrefixesDisjoint | src/MysqlImport.php:75-82 | the table's names are distinct, and no two rows' prefixes can start the same token |
| Settings.GrepThroughFlags | src/MysqlImport.php:63-71 | removing the two flags never removes a token carrying a setting's prefix |
| Settings.SettingFromArgument | src/MysqlImport.php:94-98 | a setting with a prefix takes the suffix of the last original argument carrying that prefix, whatever the environment says |
| Settings.SettingFromEnvironment | src/MysqlImport.php:86-92 | with no argument carrying its prefix, a setting takes the environment value over its default |
| Settings.FlagsResolution | src/MysqlImport.php:63-71 | doWhile and force are set exactly when their flag appears among the arguments |
| Settings.TableKeys | src/MysqlImport.php:84-102 | the table yields exactly the six settings, whatever the arguments |
| Settings.PropertiesShape | src/MysqlImport.php:75-102 | exactly the six settings reach the adapter, and host, port and database are never null |
| Settings.DatabaseFallsBackToDefault | src/MysqlImport.php:73-98 | with no `-d` argument and no database variable given, the database is 'wordpress' iff WORDPRESS_DB_PASSWORD is present |
| Settings.RootPasswordOnlyFromEnvironment | src/MysqlImport.php:81-98 | the root password does not depend on the arguments and is the environment value of its two aliases |
| Settings.PositionalsAfterTable | src/MysqlImport.php:107-121 | the tokens not starting with `-` all survive the flags and the table, in order |
| Settings.NoFileSurvives | src/MysqlImport.php:108 | `--no-file` survives the flags and the table iff it was given |
| Settings.FileResolution | src/MysqlImport.php:107-121 | `--no-file` waives the dump and the lock file; otherwise the first argument not starting with `-` names the dump, trimmed, with its name plus ".lock" as lock file; with none, both stay null |
| Settings.Leftover | src/MysqlImport.php:58-124 | after the whole constructor, the tokens left are exactly the unrecognised arguments, in order |
| Settings.UnknownOptionResolution | src/MysqlImport.php:123-124 | the unknown option is the first unrecognised argument, and there is none iff every argument was recognised |
| Settings.UnknownOptionIsUnrecognised | src/MysqlImport.php:123-124 | the unknown option is never a flag, `--no-file`, a prefixed setting or the dump's name |
| Splitter.FirstFailure | src/MysqlImport.php:252-254 | the index is that of the first statement the engine rejects; every statement before it is accepted |
| Splitter.Statements | src/MysqlImport.php:245-263 | definition of the statements import() sends for a dump when none fails; characterised by Splitter.SplitLineByLine (which with the empty dump fixes the split completely), Splitter.SplitCutsAtClosers, Splitter.SplitLosesNothing, Splitter.SplitCountsClosers and Splitter.ClosedStatementsEndInSemicolon |
| Splitter.ExecAll | src/MysqlImport.php:252-263 | definition of sending statements until the first rejection; characterised by Splitter.ExecAllRunsPrefix and Splitter.ExecAllReportsSessionError |
| Splitter.ExecAllRunsPrefix | src/MysqlImport.php:243-263 | the statements sent are exactly the prefix up to and including the first rejected one, whose error text is returned; in the model, where dump statements are only accepted or rejected, the catalogue is unchanged |
| Splitter.ExecAllReportsSessionError | src/MysqlImport.php:252-253 | a rejection is reported with the session's mysqli_error() text after it |
| Splitter.ExecAllAppend | src/MysqlImport.php:252-261 | sending a list that succeeds throughout and then more is sending the whole list |
| Splitter.SplitLosesNothing | src/MysqlImport.php:246-256 | the statements and the leftover, concatenated, are exactly the lines that were not skipped, in order |
| Splitter.SplitCountsClosers | src/MysqlImport.php:251-256 | one statement is closed per kept line ending in `;` |
| Splitter.EndsStatementIsTrailingTrim | src/MysqlImport.php:251 | a line closes a statement iff it ends in `;` once its trailing blanks are removed |
| Splitter.ClosingLineClosesBuffer | src/MysqlImport.php:250-251 | text gathered before a closing line does not stop the whole statement from ending in `;` |
| Splitter.ClosedStatementsEndInSemicolon | src/MysqlImport.php:250-256 | every statement closed inside the loop ends in `;` once trimmed |
| Splitter.SplitConcat | src/MysqlImport.php:246-256 | cutting two runs of lines one after the other is cutting the first, then cutting the second from the buffer the first left behind |
| Splitter.SplitLineByLine | src/MysqlImport.php:246-256 | one more line, in reading order: a skipped line changes nothing; a kept line ending in `;` closes the buffer plus that line as a statement and empties the buffer; any other kept line is appended to the buffer |
| Splitter.SplitCutsAtClosers | src/MysqlImport.php:250-256 | for any first part of a dump, the statements its lines close are the first statements of the whole dump, and the buffer is empty right after a kept line ending in `;` |
| Splitter.MultiLineDump | src/MysqlImport.php:246-256 | a statement spread over two lines is sent once with its line ends; a comment line is never sent |
| Splitter.NewlineOnlyLeftoverIsSent | src/MysqlImport.php:247-263 | a line holding only its terminator is gathered, and a whitespace-only leftover is still sent |
| Splitter.ZeroLeftoverIsDropped | src/MysqlImport.php:259 | a leftover reading "0" is falsy and is not sent |
| Splitter.IndentedCommentIsSent | src/MysqlImport.php:247 | only `--` at column 0 marks a comment; an indented one is sent as SQL |
| Orchestrator.MessageNotBlank | src/MysqlImport.php:285-290 | the refusal reads "Required blank database for import." |
| Orchestrator.MessageNoRootPassword | src/MysqlImport.php:206-208 | the message reads "Required at least root password." |
| Orchestrator.MessageNoDump | src/MysqlImport.php:144-146 | the message reads "Required sql file to import." |
| Orchestrator.MessageBlankReady | src/MysqlImport.php:239-241 | the message reads "Blank database is ready." |
| Orchestrator.MessageFileNotFound | src/MysqlImport.php:148-150 | the message reads "Sql file '<path>' not found." |
| Orchestrator.MessageSuccess | src/MysqlImport.php:267 | the message reads "Database named '<db>' successfully imported." |
| Orchestrator.MessageUnknownOption | src/MysqlImport.php:322-324 | the message reads "Unknown option '<token>'." |
| Orchestrator.ImportSpec | src/MysqlImport.php:237-268 | definition of import(); characterised by Orchestrator.NoFileImport, Orchestrator.ImportRule, Orchestrator.ImportFiles and Orchestrator.ImportFalsyAnswer |
| Orchestrator.TryUserSpec | src/MysqlImport.php:168-196 | definition of tryUserAndPassword(); characterised by the user-path lemmas below |
| Orchestrator.TryRootSpec | src/MysqlImport.php:203-232 | definition of tryRootPassword(); characterised by the root-path lemmas below |
| Orchestrator.RunSpec | src/MysqlImport.php:130-161 | definition of run(); characterised by the Run lemmas below |
| Orchestrator.TwoAttemptsRule | src/MysqlImport.php:175-183 | each path connects exactly twice with the same credentials, pauses exactly when the first attempt left no link, and touches nothing else |
| Orchestrator.NoFileImport | src/MysqlImport.php:239-241 | with `--no-file`, import() selects nothing, sends nothing, writes nothing and says "Blank database is ready." |
| Orchestrator.ImportRule | src/MysqlImport.php:237-268 | import() selects the database, then sends the statements up to the first rejection; the lock file is written and success reported exactly when none is rejected; otherwise the rejection's text is the message; in the model the dump leaves the catalogue unchanged |
| Orchestrator.ImportFiles | src/MysqlImport.php:237-268 | import() only appends to the server's log, either leaves the files alone or writes the lock file and reports success, keeps the exit code, and capitalises its message |
| Orchestrator.ImportFalsyAnswer | src/MysqlImport.php:252-263 | import()'s message reads as false only when it is the session's error text after a rejected statement, "" or "0" |
| Orchestrator.UserPathDeclines | src/MysqlImport.php:171-183 | the user path is skipped without a truthy user and password, and declines exactly when the second connect leaves no link, changing only what the connects did |
| Orchestrator.UserProbesRule | src/MysqlImport.php:185-193 | after connecting, the user path probes with LIKE, sends CREATE only when nothing matched, then selects and lists tables; an existing database is blank iff it has no tables, and one just created is blank |
| Orchestrator.UserPathImports | src/MysqlImport.php:185-195 | once connected, the user path always answers; an existing non-blank database is refused, with exit code 0 and no file written, unless forced |
| Orchestrator.UserImportsBlankOrForced | src/MysqlImport.php:185-195 | once connected, the user path imports when forced, when the database exists with no tables, or when nothing matched and CREATE was accepted |
| Orchestrator.UserPathImportsNewDatabase | src/MysqlImport.php:168-196 | accepted credentials, no matching database, an accepted CREATE and every statement accepted: success is reported and the lock file names the database; the database still existing afterwards relies on the model's dump statements leaving the catalogue alone |
| Orchestrator.UserPathFalsyAnswer | src/MysqlImport.php:156-196 | the user path's answer reads as false only when it is the session's error text after a rejected statement, "" or "0" |
| Orchestrator.UserPathOutcome | src/MysqlImport.php:168-196 | the user path leaves the files alone or writes the lock file and reports success, leaves the exit code or sets it to 0, and capitalises its message |
| Orchestrator.RootPathNeedsPassword | src/MysqlImport.php:206-208 | without a truthy root password the root path changes nothing and says so |
| Orchestrator.RootConnectionProblem | src/MysqlImport.php:215-218 | a second failed connect as root reports the client's last connect error and errno for root on the host, with exit code 1 |
| Orchestrator.RootRefusesNonBlank | src/MysqlImport.php:221-226 | an existing non-blank database is refused unless forced: exit code 0, no file written, only the probes sent |
| Orchestrator.RootImportsBlankOrForced | src/MysqlImport.php:221-224 | an existing database with no tables, or any existing one under `--force`, is imported right after the probes |
| Orchestrator.RootCreateFailure | src/MysqlImport.php:227-231 | a database the probe does not find gets exactly one CREATE DATABASE after the LIKE probe; a rejected CREATE is reported with the engine's text, the catalogue, files and exit code unchanged |
| Orchestrator.RootCreatesThenImports | src/MysqlImport.php:227-228 | a successful CREATE leaves the database existing and is followed by the import |
| Orchestrator.RootPathOutcome | src/MysqlImport.php:203-232 | the root path leaves the files alone or writes the lock file and reports success, sets the exit code only to 0 or 1, and capitalises its message |
| Orchestrator.RootFoundOutcome | src/MysqlImport.php:220-231 | once connected as root, the path leaves the files alone or writes the lock file and reports success, and leaves the exit code or sets it to 0 |
| Orchestrator.RunRejectsUnknownOption | src/MysqlImport.php:132-134 | a truthy unknown option ends run() at once with exit code 2 and nothing connected or touched |
| Orchestrator.RunNeedsDump | src/MysqlImport.php:144-150 | without `--do-while`, a missing dump name or a dump that does not exist ends run() before any connect, with the exit code unchanged |
| Orchestrator.RunWaitsForServer | src/MysqlImport.php:136-142 | `--do-while` makes one connect as root and one five-second pause before the checks |
| Orchestrator.RunFallsThrough | src/MysqlImport.php:152-160 | once the checks pass, the stale lock file is gone; a declined user path falls through to the root path; a user-path answer ends the run, with no root connect after it, unless it is an engine error text "" or "0" |
| Orchestrator.RunImportsIntoNewDatabase | src/MysqlImport.php:130-196 | a run with accepted user credentials, no matching database, an accepted CREATE and every statement accepted reports success, leaves the lock file naming the database and keeps the exit code; the database still existing afterwards relies on the model's dump statements leaving the catalogue alone |
| Orchestrator.RunExitCode | src/MysqlImport.php:130-161 | the exit code ends as 0, 1 or 2, is 2 exactly for an unknown option, and every message is capitalised |
| Orchestrator.RunLeavesNoStaleLock | src/MysqlImport.php:152-267 | after run(), a lock file exists only if this run wrote it after a successful import: it names the database and the message reports success |
| Importer.MysqlImport.constructor | src/MysqlImport.php:58-125 | the settings, flags, dump, lock file and unknown option are those Resolve gives; the adapter is new and unconnected; the exit code is 0 |
| Importer.MysqlImport.TakeFlags | src/MysqlImport.php:63-71 | each flag is set exactly when present and every copy of it is removed |
| Importer.MysqlImport.ResolveOptions | src/MysqlImport.php:84-102 | the loop over the table yields the settings and leftover tokens ResolveOpts gives |
| Importer.MysqlImport.FromEnvironment | src/MysqlImport.php:87-92 | the alias loop yields the value of the last set, truthy alias, else the default |
| Importer.MysqlImport.ChooseFile | src/MysqlImport.php:107-121 | the loop picks the dump, lock file and leftover tokens PickFile gives |
| Importer.MysqlImport.Import | src/MysqlImport.php:237-268 | the new state and message are those ImportSpec gives; the settings are unchanged |
| Importer.MysqlImport.SendDump | src/MysqlImport.php:243-263 | the line loop sends exactly what ExecAll sends for the dump's statements and returns its error; only the server changes |
| Importer.MysqlImport.WriteLockFile | src/MysqlImport.php:330-337 | the lock file now records the database name; nothing else changes |
| Importer.MysqlImport.MessageDatabaseNotBlank | src/MysqlImport.php:285-290 | exit code 0 and the refusal message |
| Importer.MysqlImport.MessageConnectionProblem | src/MysqlImport.php:299-309 | exit code 1 and the message naming the user, the host, and the client's last connect error and errno |
| Importer.MysqlImport.MessageUnknownOption | src/MysqlImport.php:318-325 | exit code 2 and the message quoting the unknown option |
| Importer.MysqlImport.Waiting | src/Loader.php:35-44 | one pause of the given length is recorded and nothing else changes |
| Importer.MysqlImport.TryUserAndPassword | src/MysqlImport.php:168-196 | the new state and the message, or None for `false`, are those TryUserSpec gives |
| Importer.MysqlImport.TryRootPassword | src/MysqlImport.php:203-232 | the new state and message are those TryRootSpec gives |
| Importer.MysqlImport.Run | src/MysqlImport.php:130-161 | the new state and message are those RunSpec gives; the lemmas above say what that means |

## Left out

- The loader's spinner, terminal output and sleeping (src/Loader.php) are left out. A pause is recorded as its length in seconds only, and its text argument is dropped.
- The `--do-while` deadline is not modelled. Its guard reads `$this->error`, which nothing assigns, so the body runs once: one connect as root and one pause. No clock is needed for that.
- The mysqli client is reduced to scripted outcomes. Its wire protocol, its error texts and numbers, and PHP 8's exception reporting mode are not modelled. Connect outcomes and rejected statements are inputs, and error texts are opaque strings.
- Statements from the dump are modelled as accepted or rejected only. They leave the catalogue, the table counts and the selected database unchanged, so a dump's CREATE TABLE, DROP DATABASE, CREATE DATABASE or USE has no effect on the model's server beyond its log.
- Introspection queries (SHOW DATABASES LIKE, SHOW TABLES) never fail in the model, and SELECT on a missing database changes nothing.
- The engine's LIKE has no escape character and is case-sensitive. Server collation rules are not modelled.
- The model's server accepts CREATE DATABASE for a name that already exists. The importer only sends it after the LIKE probe finds no match, and `Engine.LikeSelf` shows that an existing name always matches.
- Adapter.DropNeedsYes: floats and arrays passed to drop() are not modelled; `Php.Mixed` covers null, booleans, integers and strings.
- Importer.MysqlImport.WriteLockFile: the lock file's content is the database name as its only line. The JSON document with pretty printing and escaping is not modelled.
- The filesystem is a map from existing paths to their lines. file_exists, file(), unlink and file_put_contents act on that map, and I/O errors are not modelled.
- The exception-logging line in connect() (src/DatabaseAdapter.php:84) is not modelled. It appends to an undeclared property and affects nothing the tool returns.
- Importer.MysqlImport.GetExitCode is a plain getter with no contract of its own. What the exit code can be is stated by `Orchestrator.RunExitCode`.
- `MysqlImport` extends `DatabaseAdapter` in the original. Here it holds an adapter (`db`) and reads and updates the adapter's fields through it.
- The test for `MysqlImport` expects `run()` to return an empty string. That expectation does not match the code: its argument is taken as the dump's path, and the run reports that file as missing.
- Splitting `host:port` and defaulting the root password to the password appear in no source file, and are not modelled.
- Where PHP 7 and PHP 8 differ, the model follows PHP 7. For example, a SHOW TABLES without a usable result counts as zero rows, where PHP 8 would throw.
