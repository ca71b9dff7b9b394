/**
 * How the importer's constructor turns the environment and the command-line
 * arguments into its settings. Each of six settings starts from a default, is
 * overwritten by every environment alias, in order, that is set and truthy, and
 * then by the last argument carrying the setting's prefix (`-h`, `-P`, `-d`,
 * `-u`, `-p`; the root password has none). The flags `--do-while`, `--force`
 * and `--no-file` are recognised, the first argument not starting with `-`
 * names the dump, and the first argument left over is the unknown option.
 * Argument lists are filtered the way array_diff() and preg_grep() do: every
 * equal (or matching) token goes, the order of the others is kept.
 */
module Settings {
  import opened Php

  /** One row of the option table: property name, default, command-line prefix, environment aliases. */
  datatype Opt = Opt(name: string, default: Option<string>, flag: Option<string>, aliases: seq<string>)

  /** The dump to import: none named (null), `--no-file` (false), or a path. */
  datatype FileArg = Unset | NoFile | Path(path: string)

  /** Everything the constructor decides. */
  datatype Setup = Setup(
    properties: map<string, Option<string>>,
    file: FileArg,
    lockFile: FileArg,
    doWhile: bool,
    force: bool,
    unknownOption: Option<string>)   // None when reset() found no argument left (false)

  /** A WordPress container is recognised by the mere presence of its password variable. */
  function DefaultDatabase(env: map<string, string>): string
  {
    if "WORDPRESS_DB_PASSWORD" in env then "wordpress" else "database"
  }

  function OptTable(defaultDatabase: string): seq<Opt>
  {
    [ Opt("host", Some("mysql"), Some("-h"), ["MYSQL_HOST", "DB_HOST", "WORDPRESS_DB_HOST"]),
      Opt("port", Some("3306"), Some("-P"), ["MYSQL_PORT", "DB_PORT"]),
      Opt("database", Some(defaultDatabase), Some("-d"), ["MYSQL_DATABASE", "DB_NAME", "WORDPRESS_DB_NAME"]),
      Opt("user", None, Some("-u"), ["MYSQL_USER", "DB_USER", "WORDPRESS_DB_USER"]),
      Opt("password", None, Some("-p"), ["MYSQL_PASSWORD", "DB_PASSWORD", "WORDPRESS_DB_PASSWORD"]),
      Opt("rootPassword", None, None, ["MYSQL_ROOT_PASSWORD", "DB_ROOT_PASSWORD"]) ]
  }

  /** An environment variable that is set and truthy. */
  predicate Given(env: map<string, string>, key: string)
  {
    key in env && Truthy(env[key])
  }

  /** The value after visiting `aliases` in order, starting from `init`. */
  function EnvValue(env: map<string, string>, aliases: seq<string>, init: Option<string>): Option<string>
    decreases |aliases|
  {
    if aliases == [] then init
    else
      var key := aliases[|aliases| - 1];
      if Given(env, key) then Some(env[key]) else EnvValue(env, aliases[..|aliases| - 1], init)
  }

  /** The tokens of `a` that `f` keeps, in their order. */
  function Keep(a: seq<string>, f: string -> bool): (r: seq<string>)
    ensures |r| <= |a|
    ensures forall i :: 0 <= i < |r| ==> f(r[i]) && r[i] in a
  {
    if a == [] then [] else (if f(a[0]) then [a[0]] else []) + Keep(a[1..], f)
  }

  /** preg_grep() with the anchored pattern `^<prefix>[\S]*`: the tokens starting with `prefix`. */
  function Grep(a: seq<string>, prefix: string): seq<string>
  {
    Keep(a, x => StartsWith(x, prefix))
  }

  /** array_diff(a, removed): every token equal to a removed one goes. */
  function Without(a: seq<string>, removed: seq<string>): seq<string>
  {
    Keep(a, x => x !in removed)
  }

  /** `if (in_array($flag, $argv)) $argv = array_diff($argv, [$flag]);` */
  function Strip(argv: seq<string>, flag: string): seq<string>
  {
    if flag in argv then Without(argv, [flag]) else argv
  }

  /** One row of the table: its value, and the tokens left once its own are consumed. */
  function ApplyOpt(env: map<string, string>, argv: seq<string>, o: Opt): (Option<string>, seq<string>)
  {
    if TruthyOpt(o.flag) && Grep(argv, o.flag.value) != [] then
      var matched := Grep(argv, o.flag.value);
      var last := matched[|matched| - 1];
      (Some(last[|o.flag.value|..]), Without(argv, matched))
    else (EnvValue(env, o.aliases, o.default), argv)
  }

  /** The table processed row by row. */
  function ResolveOpts(env: map<string, string>, argv: seq<string>, opts: seq<Opt>): (map<string, Option<string>>, seq<string>)
    decreases |opts|
  {
    if opts == [] then (map[], argv)
    else
      var (properties, rest) := ResolveOpts(env, argv, opts[..|opts| - 1]);
      var o := opts[|opts| - 1];
      var (value, rest2) := ApplyOpt(env, rest, o);
      (properties[o.name := value], rest2)
  }

  /** The tokens that may name the dump: those whose first character is not `-`. */
  function Positionals(a: seq<string>): seq<string>
  {
    Keep(a, x => NotDashFirst(x))
  }

  /** `--no-file`, else the first positional token, trimmed, with its lock file beside it. */
  function PickFile(argv: seq<string>): (FileArg, FileArg, seq<string>)
  {
    if "--no-file" in argv then (NoFile, NoFile, Strip(argv, "--no-file"))
    else if Positionals(argv) == [] then (Unset, Unset, argv)
    else
      var token := Positionals(argv)[0];
      (Path(Trim(token)), Path(Trim(token) + ".lock"), Without(argv, [token]))
  }

  /** The constructor's decisions, in the order it makes them. */
  function Resolve(env: map<string, string>, argv: seq<string>): Setup
  {
    var a1 := Strip(argv, "--do-while");
    var (properties, a3) := ResolveOpts(env, Strip(a1, "--force"), OptTable(DefaultDatabase(env)));
    var (file, lockFile, a4) := PickFile(a3);
    Setup(properties, file, lockFile, "--do-while" in argv, "--force" in a1, if a4 == [] then None else Some(a4[0]))
  }

  // ---------------------------------------------------------------------------
  // Filters

  lemma {:induction false} KeepAppend(x: seq<string>, y: seq<string>, f: string -> bool)
    ensures Keep(x + y, f) == Keep(x, f) + Keep(y, f)
    decreases |x|
  {
    if x == [] {
      assert x + y == y;
    } else {
      assert (x + y)[0] == x[0];
      assert (x + y)[1..] == x[1..] + y;
      KeepAppend(x[1..], y, f);
    }
  }

  lemma {:induction false} KeepMember(a: seq<string>, f: string -> bool, x: string)
    ensures x in Keep(a, f) <==> x in a && f(x)
    decreases |a|
  {
    if a != [] {
      KeepMember(a[1..], f, x);
      assert a == [a[0]] + a[1..];
    }
  }

  /** Filters that agree on every token of `a` keep the same tokens. */
  lemma {:induction false} KeepExt(a: seq<string>, f: string -> bool, g: string -> bool)
    requires forall i :: 0 <= i < |a| ==> f(a[i]) == g(a[i])
    ensures Keep(a, f) == Keep(a, g)
    decreases |a|
  {
    if a != [] {
      KeepExt(a[1..], f, g);
    }
  }

  /** A filter that keeps every token changes nothing. */
  lemma {:induction false} KeepAll(a: seq<string>, f: string -> bool)
    requires forall i :: 0 <= i < |a| ==> f(a[i])
    ensures Keep(a, f) == a
    decreases |a|
  {
    if a != [] {
      KeepAll(a[1..], f);
      assert a == [a[0]] + a[1..];
    }
  }

  /** A filter keeps nothing exactly when it rejects every token. */
  lemma {:induction false} KeepNone(a: seq<string>, f: string -> bool)
    ensures Keep(a, f) == [] <==> forall i :: 0 <= i < |a| ==> !f(a[i])
    decreases |a|
  {
    if a != [] {
      KeepNone(a[1..], f);
      if Keep(a, f) == [] {
        forall i | 0 <= i < |a| ensures !f(a[i]) {
          if i > 0 {
            assert a[i] == a[1..][i - 1];
          }
        }
      }
    }
  }

  /** Filtering twice is filtering once by both tests. */
  lemma {:induction false} KeepKeep(a: seq<string>, f: string -> bool, g: string -> bool, h: string -> bool)
    requires forall i :: 0 <= i < |a| ==> h(a[i]) == (f(a[i]) && g(a[i]))
    ensures Keep(Keep(a, f), g) == Keep(a, h)
    decreases |a|
  {
    if a != [] {
      KeepKeep(a[1..], f, g, h);
      var head := if f(a[0]) then [a[0]] else [];
      KeepAppend(head, Keep(a[1..], f), g);
      if f(a[0]) {
        assert Keep(head, g) == (if g(a[0]) then [a[0]] else []) + Keep([], g);
      }
    }
  }

  /** A second filter that only rejects what the first already rejected does nothing more. */
  lemma KeepUnaffected(a: seq<string>, f: string -> bool, g: string -> bool)
    requires forall i :: 0 <= i < |a| && g(a[i]) ==> f(a[i])
    ensures Keep(Keep(a, f), g) == Keep(a, g)
  {
    KeepKeep(a, f, g, g);
  }

  /** The first token kept is the first token of `a` the filter accepts. */
  lemma {:induction false} KeepFirst(a: seq<string>, f: string -> bool, i: nat)
    requires i < |a| && f(a[i])
    requires forall j :: 0 <= j < i ==> !f(a[j])
    ensures Keep(a, f) != [] && Keep(a, f)[0] == a[i]
    decreases i
  {
    if i > 0 {
      KeepFirst(a[1..], f, i - 1);
    }
  }

  /** The last token kept is the last token of `a` the filter accepts. */
  lemma {:induction false} KeepLast(a: seq<string>, f: string -> bool, i: nat)
    requires i < |a| && f(a[i])
    requires forall j :: i < j < |a| ==> !f(a[j])
    ensures Keep(a, f) != [] && Keep(a, f)[|Keep(a, f)| - 1] == a[i]
    decreases i
  {
    if i == 0 {
      forall j | 0 <= j < |a[1..]| ensures !f(a[1..][j]) {
        assert a[1..][j] == a[j + 1];
      }
      KeepNone(a[1..], f);
    } else {
      forall j | i - 1 < j < |a[1..]| ensures !f(a[1..][j]) {
        assert a[1..][j] == a[j + 1];
      }
      KeepLast(a[1..], f, i - 1);
    }
  }

  lemma SamePrefixLength(x: string, p: string, q: string)
    requires StartsWith(x, p) && StartsWith(x, q) && |p| == |q|
    ensures p == q
  {
    assert p == x[..|p|];
  }

  // ---------------------------------------------------------------------------
  // The environment

  /** The environment value is that of the last set, truthy alias; with none, the default stays. */
  lemma {:induction false} EnvValueIsLastGiven(env: map<string, string>, aliases: seq<string>, init: Option<string>)
    ensures (forall j :: 0 <= j < |aliases| ==> !Given(env, aliases[j])) ==> EnvValue(env, aliases, init) == init
    ensures forall j :: 0 <= j < |aliases| && Given(env, aliases[j])
                        && (forall k :: j < k < |aliases| ==> !Given(env, aliases[k]))
                        ==> EnvValue(env, aliases, init) == Some(env[aliases[j]])
    decreases |aliases|
  {
    if aliases != [] {
      var n := |aliases| - 1;
      var front := aliases[..n];
      EnvValueIsLastGiven(env, front, init);
      if forall j :: 0 <= j < |aliases| ==> !Given(env, aliases[j]) {
        assert forall j :: 0 <= j < n ==> !Given(env, front[j]);
      }
      forall j | 0 <= j < |aliases| && Given(env, aliases[j]) && (forall k :: j < k < |aliases| ==> !Given(env, aliases[k]))
        ensures EnvValue(env, aliases, init) == Some(env[aliases[j]])
      {
        if j < n {
          assert front[j] == aliases[j];
          assert !Given(env, aliases[n]);
          assert forall k :: j < k < n ==> !Given(env, front[k]);
        }
      }
    }
  }

  // ---------------------------------------------------------------------------
  // The option table

  /** A token one of the first rows of the table consumes. */
  predicate Flagged(x: string, opts: seq<Opt>)
    decreases |opts|
  {
    opts != [] &&
    var o := opts[|opts| - 1];
    ((TruthyOpt(o.flag) && StartsWith(x, o.flag.value)) || Flagged(x, opts[..|opts| - 1]))
  }

  /** The property names the rows set. */
  function Names(opts: seq<Opt>): set<string>
    decreases |opts|
  {
    if opts == [] then {} else Names(opts[..|opts| - 1]) + {opts[|opts| - 1].name}
  }

  /** After the rows, the tokens left are those no row's prefix matches, in their order. */
  lemma {:induction false} ResolveOptsRest(env: map<string, string>, a: seq<string>, opts: seq<Opt>)
    ensures ResolveOpts(env, a, opts).1 == Keep(a, x => !Flagged(x, opts))
    ensures ResolveOpts(env, a, opts).0.Keys == Names(opts)
    decreases |opts|
  {
    if opts == [] {
      KeepAll(a, x => !Flagged(x, opts));
    } else {
      var init := opts[..|opts| - 1];
      var o := opts[|opts| - 1];
      ResolveOptsRest(env, a, init);
      var rest := ResolveOpts(env, a, init).1;
      assert rest == Keep(a, x => !Flagged(x, init));
      if TruthyOpt(o.flag) {
        var p := o.flag.value;
        var matched := Grep(rest, p);
        KeepKeep(a, x => !Flagged(x, init), x => !StartsWith(x, p), x => !Flagged(x, opts));
        if matched != [] {
          forall i | 0 <= i < |rest| ensures (rest[i] !in matched) == !StartsWith(rest[i], p) {
            KeepMember(rest, x => StartsWith(x, p), rest[i]);
          }
          KeepExt(rest, x => x !in matched, x => !StartsWith(x, p));
        } else {
          KeepNone(rest, x => StartsWith(x, p));
          KeepAll(rest, x => !StartsWith(x, p));
        }
      } else {
        KeepExt(a, x => !Flagged(x, init), x => !Flagged(x, opts));
      }
    }
  }

  /** Each row's value is decided by that row alone, on the tokens the earlier rows left; later rows do not overwrite it. */
  lemma {:induction false} ResolveOptsValue(env: map<string, string>, a: seq<string>, opts: seq<Opt>, m: nat)
    requires m < |opts|
    requires forall i, j :: 0 <= i < j < |opts| ==> opts[i].name != opts[j].name
    ensures opts[m].name in ResolveOpts(env, a, opts).0
    ensures ResolveOpts(env, a, opts).0[opts[m].name] == ApplyOpt(env, ResolveOpts(env, a, opts[..m]).1, opts[m]).0
    decreases |opts|
  {
    var init := opts[..|opts| - 1];
    if m < |opts| - 1 {
      ResolveOptsValue(env, a, init, m);
      assert init[..m] == opts[..m];
      assert opts[m].name != opts[|opts| - 1].name;
    }
  }

  /** A token starting with one of the command-line prefixes. */
  predicate FlagToken(x: string)
  {
    StartsWith(x, "-h") || StartsWith(x, "-P") || StartsWith(x, "-d") || StartsWith(x, "-u") || StartsWith(x, "-p")
  }

  lemma FlaggedByTable(x: string, d: string)
    ensures Flagged(x, OptTable(d)) <==> FlagToken(x)
  {
    var t := OptTable(d);
    FlaggedMeans(x, t);
    assert t[0].flag == Some("-h") && t[1].flag == Some("-P") && t[2].flag == Some("-d");
    assert t[3].flag == Some("-u") && t[4].flag == Some("-p") && t[5].flag == None;
    if Flagged(x, t) {
      var j :| 0 <= j < |t| && TruthyOpt(t[j].flag) && StartsWith(x, t[j].flag.value);
      assert j == 0 || j == 1 || j == 2 || j == 3 || j == 4;
    }
  }

  /** The last token of `a` carrying `prefix` sits at `i`. */
  predicate LastWithPrefix(a: seq<string>, i: int, prefix: string)
  {
    0 <= i < |a| && StartsWith(a[i], prefix) && forall j :: i < j < |a| ==> !StartsWith(a[j], prefix)
  }

  /** A token that survives the flags and the table: neither flag, nor carrying a prefix. */
  predicate Early(x: string)
  {
    x != "--do-while" && x != "--force" && !FlagToken(x)
  }

  /** `in_array` then `array_diff` removes every copy of the flag, and nothing else. */
  lemma StripIsFilter(argv: seq<string>, flag: string)
    ensures Strip(argv, flag) == Keep(argv, x => x != flag)
  {
    if flag in argv {
      KeepExt(argv, x => x !in [flag], x => x != flag);
    } else {
      KeepAll(argv, x => x != flag);
    }
  }

  /** The two flags go first, every copy of them, and nothing else does. */
  lemma AfterFlags(argv: seq<string>)
    ensures Strip(argv, "--do-while") == Keep(argv, x => x != "--do-while")
    ensures Strip(Strip(argv, "--do-while"), "--force") == Keep(argv, x => x != "--do-while" && x != "--force")
    ensures "--force" in Strip(argv, "--do-while") <==> "--force" in argv
  {
    var a1 := Strip(argv, "--do-while");
    StripIsFilter(argv, "--do-while");
    StripIsFilter(a1, "--force");
    KeepMember(argv, x => x != "--do-while", "--force");
    KeepKeep(argv, x => x != "--do-while", x => x != "--force", x => x != "--do-while" && x != "--force");
  }

  /** What is left once the flags and the table have consumed their tokens. */
  lemma AfterTable(env: map<string, string>, argv: seq<string>)
    ensures ResolveOpts(env, Strip(Strip(argv, "--do-while"), "--force"), OptTable(DefaultDatabase(env))).1 == Keep(argv, Early)
  {
    var a2 := Strip(Strip(argv, "--do-while"), "--force");
    AfterFlags(argv);
    var t := OptTable(DefaultDatabase(env));
    ResolveOptsRest(env, a2, t);
    forall i | 0 <= i < |argv| ensures Early(argv[i]) == ((argv[i] != "--do-while" && argv[i] != "--force") && !Flagged(argv[i], t)) {
      FlaggedByTable(argv[i], DefaultDatabase(env));
    }
    KeepKeep(argv, x => x != "--do-while" && x != "--force", x => !Flagged(x, t), Early);
  }

  /** No two rows share a prefix, and all prefixes have one length. */
  predicate PrefixesDisjoint(opts: seq<Opt>)
  {
    forall i, j :: 0 <= i < j < |opts| && opts[i].flag.Some? && opts[j].flag.Some? ==>
      |opts[i].flag.value| == |opts[j].flag.value| && opts[i].flag.value != opts[j].flag.value
  }

  lemma TablePrefixesDisjoint(d: string)
    ensures PrefixesDisjoint(OptTable(d))
    ensures forall i, j :: 0 <= i < j < |OptTable(d)| ==> OptTable(d)[i].name != OptTable(d)[j].name
    ensures forall m :: 0 <= m < 6 && OptTable(d)[m].flag.Some? ==>
              var p := OptTable(d)[m].flag.value; |p| == 2 && p[0] == '-' && p[1] != '-'
  {
  }

  /** A token carrying row m's prefix carries none of the earlier rows' prefixes. */
  lemma LaterPrefixNotFlagged(x: string, opts: seq<Opt>, m: nat)
    requires m < |opts| && opts[m].flag.Some? && PrefixesDisjoint(opts)
    requires StartsWith(x, opts[m].flag.value)
    ensures !Flagged(x, opts[..m])
  {
    FlaggedMeans(x, opts[..m]);
  }

  /** The earlier rows never take a token carrying a later row's prefix. */
  lemma GrepThroughRows(env: map<string, string>, a: seq<string>, opts: seq<Opt>, m: nat)
    requires m < |opts| && opts[m].flag.Some? && PrefixesDisjoint(opts)
    ensures Grep(ResolveOpts(env, a, opts[..m]).1, opts[m].flag.value) == Grep(a, opts[m].flag.value)
  {
    var p := opts[m].flag.value;
    ResolveOptsRest(env, a, opts[..m]);
    forall i | 0 <= i < |a| && StartsWith(a[i], p) ensures !Flagged(a[i], opts[..m]) {
      LaterPrefixNotFlagged(a[i], opts, m);
    }
    KeepUnaffected(a, x => !Flagged(x, opts[..m]), x => StartsWith(x, p));
  }

  /** The two flags never take a token carrying a prefix such as `-h`. */
  lemma GrepThroughFlags(argv: seq<string>, p: string)
    requires |p| == 2 && p[0] == '-' && p[1] != '-'
    ensures Grep(Strip(Strip(argv, "--do-while"), "--force"), p) == Grep(argv, p)
  {
    AfterFlags(argv);
    forall i | 0 <= i < |argv| && StartsWith(argv[i], p) ensures argv[i] != "--do-while" && argv[i] != "--force" {
      assert argv[i][1] == p[1];
    }
    KeepUnaffected(argv, x => x != "--do-while" && x != "--force", x => StartsWith(x, p));
  }

  /** A row's value, when its prefix finds the same tokens in `rest` as in `argv`. */
  lemma RowValue(env: map<string, string>, rest: seq<string>, argv: seq<string>, o: Opt)
    requires o.flag.None? || TruthyOpt(o.flag)
    requires o.flag.Some? ==> Grep(rest, o.flag.value) == Grep(argv, o.flag.value)
    ensures forall i :: o.flag.Some? && LastWithPrefix(argv, i, o.flag.value) ==>
              ApplyOpt(env, rest, o).0 == Some(argv[i][|o.flag.value|..])
    ensures (o.flag.None? || forall i :: 0 <= i < |argv| ==> !StartsWith(argv[i], o.flag.value))
              ==> ApplyOpt(env, rest, o).0 == EnvValue(env, o.aliases, o.default)
  {
    if o.flag.Some? {
      var p := o.flag.value;
      forall i | LastWithPrefix(argv, i, p) ensures ApplyOpt(env, rest, o).0 == Some(argv[i][|p|..]) {
        KeepLast(argv, x => StartsWith(x, p), i);
      }
      KeepNone(argv, x => StartsWith(x, p));
    }
  }

  /** A row's value in any table with distinct names and disjoint prefixes, once the row's prefix sees the same tokens as in `argv`. */
  lemma RowResolution(env: map<string, string>, a: seq<string>, argv: seq<string>, opts: seq<Opt>, m: nat)
    requires m < |opts| && PrefixesDisjoint(opts)
    requires forall i, j :: 0 <= i < j < |opts| ==> opts[i].name != opts[j].name
    requires opts[m].flag.None? || TruthyOpt(opts[m].flag)
    requires opts[m].flag.Some? ==> Grep(a, opts[m].flag.value) == Grep(argv, opts[m].flag.value)
    ensures var o := opts[m];
            var properties := ResolveOpts(env, a, opts).0;
            && o.name in properties
            && (forall i :: o.flag.Some? && LastWithPrefix(argv, i, o.flag.value) ==> properties[o.name] == Some(argv[i][|o.flag.value|..]))
            && ((o.flag.None? || forall i :: 0 <= i < |argv| ==> !StartsWith(argv[i], o.flag.value))
                ==> properties[o.name] == EnvValue(env, o.aliases, o.default))
  {
    ResolveOptsValue(env, a, opts, m);
    if opts[m].flag.Some? {
      GrepThroughRows(env, a, opts, m);
    }
    RowValue(env, ResolveOpts(env, a, opts[..m]).1, argv, opts[m]);
  }

  /** Resolve()'s settings are the option table run over the arguments left by the two flags. */
  lemma PropertiesFromTable(env: map<string, string>, argv: seq<string>, m: nat)
    requires m < 6
    ensures var t := OptTable(DefaultDatabase(env));
            var a2 := Strip(Strip(argv, "--do-while"), "--force");
            && Resolve(env, argv).properties == ResolveOpts(env, a2, t).0
            && PrefixesDisjoint(t)
            && (forall i, j :: 0 <= i < j < |t| ==> t[i].name != t[j].name)
            && (t[m].flag.None? || TruthyOpt(t[m].flag))
            && (t[m].flag.Some? ==> Grep(a2, t[m].flag.value) == Grep(argv, t[m].flag.value))
  {
    var t := OptTable(DefaultDatabase(env));
    TablePrefixesDisjoint(DefaultDatabase(env));
    if t[m].flag.Some? {
      GrepThroughFlags(argv, t[m].flag.value);
    }
  }

  /**
   * Every setting with a prefix takes the suffix of the LAST token of the
   * original arguments carrying that prefix.
   */
  lemma SettingFromArgument(env: map<string, string>, argv: seq<string>, m: nat, i: int)
    requires m < 6
    requires OptTable(DefaultDatabase(env))[m].flag.Some?
    requires LastWithPrefix(argv, i, OptTable(DefaultDatabase(env))[m].flag.value)
    ensures var o := OptTable(DefaultDatabase(env))[m];
            && o.name in Resolve(env, argv).properties
            && Resolve(env, argv).properties[o.name] == Some(argv[i][|o.flag.value|..])
  {
    PropertiesFromTable(env, argv, m);
    RowResolution(env, Strip(Strip(argv, "--do-while"), "--force"), argv, OptTable(DefaultDatabase(env)), m);
  }

  /** With no token carrying its prefix (always, for the root password), a setting takes the environment value over its default. */
  lemma SettingFromEnvironment(env: map<string, string>, argv: seq<string>, m: nat)
    requires m < 6
    requires var o := OptTable(DefaultDatabase(env))[m];
             o.flag.None? || forall i :: 0 <= i < |argv| ==> !StartsWith(argv[i], o.flag.value)
    ensures var o := OptTable(DefaultDatabase(env))[m];
            && o.name in Resolve(env, argv).properties
            && Resolve(env, argv).properties[o.name] == EnvValue(env, o.aliases, o.default)
  {
    PropertiesFromTable(env, argv, m);
    RowResolution(env, Strip(Strip(argv, "--do-while"), "--force"), argv, OptTable(DefaultDatabase(env)), m);
  }

  /** Flagged means: some row's prefix starts the token. */
  lemma {:induction false} FlaggedMeans(x: string, opts: seq<Opt>)
    ensures Flagged(x, opts) <==> exists j :: 0 <= j < |opts| && TruthyOpt(opts[j].flag) && StartsWith(x, opts[j].flag.value)
    decreases |opts|
  {
    if opts != [] {
      var init := opts[..|opts| - 1];
      FlaggedMeans(x, init);
      if Flagged(x, init) {
        var j :| 0 <= j < |init| && TruthyOpt(init[j].flag) && StartsWith(x, init[j].flag.value);
        assert opts[j] == init[j];
      }
      if exists j :: 0 <= j < |opts| && TruthyOpt(opts[j].flag) && StartsWith(x, opts[j].flag.value) {
        var j :| 0 <= j < |opts| && TruthyOpt(opts[j].flag) && StartsWith(x, opts[j].flag.value);
        if j < |init| {
          assert init[j] == opts[j];
        }
      }
    }
  }

  // ---------------------------------------------------------------------------
  // What the constructor promises

  /** `--do-while` and `--force` set their flags exactly when present. */
  lemma FlagsResolution(env: map<string, string>, argv: seq<string>)
    ensures Resolve(env, argv).doWhile <==> "--do-while" in argv
    ensures Resolve(env, argv).force <==> "--force" in argv
  {
    AfterFlags(argv);
  }

  lemma {:induction false} EnvValueKeepsSome(env: map<string, string>, aliases: seq<string>, init: Option<string>)
    requires init.Some?
    ensures EnvValue(env, aliases, init).Some?
    decreases |aliases|
  {
    if aliases != [] {
      EnvValueKeepsSome(env, aliases[..|aliases| - 1], init);
    }
  }

  /** The option table yields exactly the six settings, whatever the arguments. */
  lemma TableKeys(env: map<string, string>, argv: seq<string>, defaultDatabase: string)
    ensures ResolveOpts(env, argv, OptTable(defaultDatabase)).0.Keys == {"host", "port", "database", "user", "password", "rootPassword"}
  {
    var t := OptTable(defaultDatabase);
    ResolveOptsRest(env, argv, t);
    assert Names(t[..1]) == {"host"} by {
      assert t[..1][..0] == [];
    }
    assert Names(t[..2]) == {"host", "port"} by {
      assert t[..2][..1] == t[..1];
    }
    assert Names(t[..3]) == {"host", "port", "database"} by {
      assert t[..3][..2] == t[..2];
    }
    assert Names(t[..4]) == {"host", "port", "database", "user"} by {
      assert t[..4][..3] == t[..3];
    }
    assert Names(t[..5]) == {"host", "port", "database", "user", "password"} by {
      assert t[..5][..4] == t[..4];
    }
    assert Names(t) == {"host", "port", "database", "user", "password", "rootPassword"} by {
      assert t[..5] == t[..|t| - 1];
    }
  }

  /** Resolve() as the sequence of steps the constructor takes. */
  lemma ResolveInSteps(env: map<string, string>, argv: seq<string>, a1: seq<string>, a2: seq<string>,
                       properties: map<string, Option<string>>, a3: seq<string>, file: FileArg, lockFile: FileArg, a4: seq<string>)
    requires a1 == Strip(argv, "--do-while") && a2 == Strip(a1, "--force")
    requires (properties, a3) == ResolveOpts(env, a2, OptTable(DefaultDatabase(env)))
    requires (file, lockFile, a4) == PickFile(a3)
    ensures Resolve(env, argv) == Setup(properties, file, lockFile, "--do-while" in argv, "--force" in a1,
                                        if a4 == [] then None else Some(a4[0]))
  {
  }

  /** Exactly the six settings reach the adapter; host, port and database are never null. */
  lemma PropertiesShape(env: map<string, string>, argv: seq<string>)
    ensures Resolve(env, argv).properties.Keys == {"host", "port", "database", "user", "password", "rootPassword"}
    ensures Resolve(env, argv).properties["host"].Some?
    ensures Resolve(env, argv).properties["port"].Some?
    ensures Resolve(env, argv).properties["database"].Some?
  {
    var t := OptTable(DefaultDatabase(env));
    var a2 := Strip(Strip(argv, "--do-while"), "--force");
    TableKeys(env, a2, DefaultDatabase(env));
    TablePrefixesDisjoint(DefaultDatabase(env));
    forall m | 0 <= m < 3 ensures ResolveOpts(env, a2, t).0[t[m].name].Some? {
      ResolveOptsValue(env, a2, t, m);
      EnvValueKeepsSome(env, t[m].aliases, t[m].default);
    }
    assert t[0].name == "host" && t[1].name == "port" && t[2].name == "database";
  }

  /** With no `-d` argument and no database variable set, the database is 'wordpress' iff WORDPRESS_DB_PASSWORD is present, even empty. */
  lemma DatabaseFallsBackToDefault(env: map<string, string>, argv: seq<string>)
    requires forall i :: 0 <= i < |argv| ==> !StartsWith(argv[i], "-d")
    requires !Given(env, "MYSQL_DATABASE") && !Given(env, "DB_NAME") && !Given(env, "WORDPRESS_DB_NAME")
    ensures "database" in Resolve(env, argv).properties
    ensures Resolve(env, argv).properties["database"] == Some(if "WORDPRESS_DB_PASSWORD" in env then "wordpress" else "database")
  {
    var o := OptTable(DefaultDatabase(env))[2];
    assert o == Opt("database", Some(DefaultDatabase(env)), Some("-d"), ["MYSQL_DATABASE", "DB_NAME", "WORDPRESS_DB_NAME"]);
    assert EnvValue(env, o.aliases, o.default) == o.default by {
      EnvValueIsLastGiven(env, o.aliases, o.default);
    }
    SettingFromEnvironment(env, argv, 2);
  }

  /** The root password has no command-line form: the arguments never change it. */
  lemma RootPasswordOnlyFromEnvironment(env: map<string, string>, argv: seq<string>, other: seq<string>)
    ensures Resolve(env, argv).properties["rootPassword"] == Resolve(env, other).properties["rootPassword"]
    ensures Resolve(env, argv).properties["rootPassword"] == EnvValue(env, ["MYSQL_ROOT_PASSWORD", "DB_ROOT_PASSWORD"], None)
  {
    SettingFromEnvironment(env, argv, 5);
    SettingFromEnvironment(env, other, 5);
  }

  /** The first positional token survives the flags and the table. */
  lemma PositionalsAfterTable(env: map<string, string>, argv: seq<string>)
    ensures Positionals(Keep(argv, Early)) == Positionals(argv)
  {
    forall i | 0 <= i < |argv| && NotDashFirst(argv[i]) ensures Early(argv[i]) {
    }
    KeepUnaffected(argv, Early, x => NotDashFirst(x));
  }

  lemma NoFileSurvives(argv: seq<string>)
    ensures "--no-file" in Keep(argv, Early) <==> "--no-file" in argv
  {
    assert "--no-file"[..2] == "--";
    assert Early("--no-file");
    KeepMember(argv, Early, "--no-file");
  }

  /**
   * `--no-file` waives the dump; otherwise the first argument not starting
   * with `-` names it, trimmed, and the lock file is that name plus ".lock".
   */
  lemma FileResolution(env: map<string, string>, argv: seq<string>)
    ensures var s := Resolve(env, argv);
            && (s.file == NoFile <==> "--no-file" in argv)
            && (s.lockFile == NoFile <==> "--no-file" in argv)
            && ("--no-file" !in argv && (forall i :: 0 <= i < |argv| ==> !NotDashFirst(argv[i]))
                ==> s.file == Unset && s.lockFile == Unset)
            && (forall i :: "--no-file" !in argv && 0 <= i < |argv| && NotDashFirst(argv[i])
                            && (forall j :: 0 <= j < i ==> !NotDashFirst(argv[j]))
                            ==> s.file == Path(Trim(argv[i])) && s.lockFile == Path(Trim(argv[i]) + ".lock"))
  {
    AfterTable(env, argv);
    NoFileSurvives(argv);
    PositionalsAfterTable(env, argv);
    KeepNone(argv, x => NotDashFirst(x));
    forall i | "--no-file" !in argv && 0 <= i < |argv| && NotDashFirst(argv[i]) && (forall j :: 0 <= j < i ==> !NotDashFirst(argv[j]))
      ensures Resolve(env, argv).file == Path(Trim(argv[i]))
    {
      KeepFirst(argv, x => NotDashFirst(x), i);
    }
  }

  /** The token taken as the dump's name, if any. */
  function PositionalToken(argv: seq<string>): Option<string>
  {
    if "--no-file" in argv || Positionals(argv) == [] then None else Some(Positionals(argv)[0])
  }

  /** A token the constructor recognises: a flag, a prefixed setting, or the dump's name. */
  predicate Consumed(x: string, positional: Option<string>)
  {
    !Early(x) || x == "--no-file" || positional == Some(x)
  }

  /** After the whole constructor, the tokens left are exactly the unrecognised ones, in order. */
  lemma Leftover(env: map<string, string>, argv: seq<string>)
    ensures var a3 := ResolveOpts(env, Strip(Strip(argv, "--do-while"), "--force"), OptTable(DefaultDatabase(env))).1;
            PickFile(a3).2 == Keep(argv, x => !Consumed(x, PositionalToken(argv)))
  {
    var a3 := Keep(argv, Early);
    var pos := PositionalToken(argv);
    AfterTable(env, argv);
    NoFileSurvives(argv);
    PositionalsAfterTable(env, argv);
    if "--no-file" in argv {
      StripIsFilter(a3, "--no-file");
      KeepKeep(argv, Early, x => x != "--no-file", x => !Consumed(x, pos));
    } else if Positionals(argv) == [] {
      forall i | 0 <= i < |argv| ensures Early(argv[i]) == !Consumed(argv[i], pos) {
        assert argv[i] in argv;
      }
      KeepExt(argv, Early, x => !Consumed(x, pos));
    } else {
      var token := Positionals(argv)[0];
      forall i | 0 <= i < |argv| ensures (Early(argv[i]) && argv[i] !in [token]) == !Consumed(argv[i], pos) {
        assert argv[i] in argv;
      }
      KeepKeep(argv, Early, x => x !in [token], x => !Consumed(x, pos));
    }
  }

  /** The unknown option is the first argument nothing recognised; there is none iff every argument was recognised. */
  lemma UnknownOptionResolution(env: map<string, string>, argv: seq<string>)
    ensures var u := Resolve(env, argv).unknownOption;
            var pos := PositionalToken(argv);
            && (u.None? <==> forall i :: 0 <= i < |argv| ==> Consumed(argv[i], pos))
            && (forall i :: 0 <= i < |argv| && !Consumed(argv[i], pos) && (forall j :: 0 <= j < i ==> Consumed(argv[j], pos))
                            ==> u == Some(argv[i]))
  {
    var pos := PositionalToken(argv);
    Leftover(env, argv);
    KeepNone(argv, x => !Consumed(x, pos));
    forall i | 0 <= i < |argv| && !Consumed(argv[i], pos) && (forall j :: 0 <= j < i ==> Consumed(argv[j], pos))
      ensures Resolve(env, argv).unknownOption == Some(argv[i])
    {
      KeepFirst(argv, x => !Consumed(x, pos), i);
    }
  }

  /** Recognised tokens never come back as the unknown option. */
  lemma UnknownOptionIsUnrecognised(env: map<string, string>, argv: seq<string>)
    ensures var u := Resolve(env, argv).unknownOption;
            u.Some? ==> u.value in argv && !Consumed(u.value, PositionalToken(argv))
                        && u.value != "--force" && u.value != "--do-while" && u.value != "--no-file" && !FlagToken(u.value)
  {
    Leftover(env, argv);
  }
}
