/**
 * How import() cuts a dump into statements and runs them. The dump is the list
 * of lines file() returns, each still carrying its line terminator. A line that
 * is exactly "" or starts with `--` is passed over; every other line is
 * appended to a buffer, and the buffer is sent as one statement whenever the
 * trimmed line ends in `;`. A truthy leftover is sent at the end. Sending stops
 * at the first statement the engine rejects.
 */
module Splitter {
  import opened Php
  import opened Engine

  /** A line import() passes over: "" or a comment starting at column 0. */
  predicate Skipped(line: string)
  {
    line == "" || StartsWith(line, "--")
  }

  /** `substr(trim($line), -1, 1) == ';'`. */
  predicate EndsStatement(line: string)
  {
    var t := Trim(line);
    t != "" && t[|t| - 1] == ';'
  }

  /** The statements closed so far and the text still being gathered. */
  datatype Pieces = Pieces(done: seq<string>, buffer: string)

  /** Cutting `lines` when `buffer` has already been gathered. */
  function SplitFrom(buffer: string, lines: seq<string>): Pieces
    decreases |lines|
  {
    if lines == [] then Pieces([], buffer)
    else if Skipped(lines[0]) then SplitFrom(buffer, lines[1..])
    else if EndsStatement(lines[0]) then
      var rest := SplitFrom("", lines[1..]);
      Pieces([buffer + lines[0]] + rest.done, rest.buffer)
    else SplitFrom(buffer + lines[0], lines[1..])
  }

  /** Every statement sent for `lines` after `buffer`: the closed ones, then the leftover if it is truthy. */
  function StatementsFrom(buffer: string, lines: seq<string>): seq<string>
  {
    var p := SplitFrom(buffer, lines);
    p.done + (if Truthy(p.buffer) then [p.buffer] else [])
  }

  /** Every statement import() sends for a dump, in order, when none of them fails. */
  function Statements(lines: seq<string>): seq<string>
  {
    StatementsFrom("", lines)
  }

  /** Sending statements in order on one session until the first one fails; the failure's mysqli_error() text is returned. */
  function ExecAll(s: Server, session: nat, stmts: seq<string>): (Server, Option<string>)
    decreases |stmts|
  {
    if stmts == [] then (s, None)
    else
      var (s1, ok) := Execute(s, session, stmts[0]);
      if !ok then (s1, Some(s1.ErrorOf(session))) else ExecAll(s1, session, stmts[1..])
  }

  /** Index of the first statement the engine rejects, or |stmts| when it rejects none. */
  function FirstFailure(stmts: seq<string>, failures: map<string, string>): (k: nat)
    ensures k <= |stmts|
    ensures forall i :: 0 <= i < k ==> stmts[i] !in failures
    ensures k < |stmts| ==> stmts[k] in failures
  {
    if stmts == [] || stmts[0] in failures then 0 else 1 + FirstFailure(stmts[1..], failures)
  }

  /** The log entries of sending `stmts` on `session`. */
  function Queries(session: nat, stmts: seq<string>): seq<Event>
  {
    seq(|stmts|, i requires 0 <= i < |stmts| => Query(session, stmts[i]))
  }

  /** Two server states that differ at most in their log and in the sessions' last errors. */
  predicate SameCatalogue(s: Server, t: Server)
  {
    && t.databases == s.databases && t.failures == s.failures
    && t.script == s.script && t.afterScript == s.afterScript
    && t.sessions == s.sessions && t.selected == s.selected
    && t.connectErrno == s.connectErrno && t.connectError == s.connectError
  }

  /** What one more line does to the statements still to be sent: nothing, a closed statement, or a longer buffer. */
  lemma StatementsFromStep(buffer: string, lines: seq<string>)
    requires lines != []
    ensures Skipped(lines[0]) ==> StatementsFrom(buffer, lines) == StatementsFrom(buffer, lines[1..])
    ensures !Skipped(lines[0]) && EndsStatement(lines[0]) ==>
              StatementsFrom(buffer, lines) == [buffer + lines[0]] + StatementsFrom("", lines[1..])
    ensures !Skipped(lines[0]) && !EndsStatement(lines[0]) ==>
              StatementsFrom(buffer, lines) == StatementsFrom(buffer + lines[0], lines[1..])
  {
  }

  /** Sending a statement, then the rest only if it succeeded. */
  lemma ExecAllCons(s: Server, session: nat, x: string, rest: seq<string>)
    ensures var (s1, ok) := Execute(s, session, x);
            ExecAll(s, session, [x] + rest) == if ok then ExecAll(s1, session, rest) else (s1, Some(s1.ErrorOf(session)))
  {
    assert ([x] + rest)[0] == x && ([x] + rest)[1..] == rest;
  }

  lemma QueriesFirst(session: nat, stmts: seq<string>, n: nat)
    requires 1 <= n <= |stmts|
    ensures Queries(session, stmts[..n]) == [Query(session, stmts[0])] + Queries(session, stmts[1..][..n - 1])
  {
    assert stmts[..n] == [stmts[0]] + stmts[1..][..n - 1];
  }

  /**
   * The statements sent are exactly the prefix of `stmts` up to and including
   * the first rejected one, and the error returned is that statement's.
   */
  lemma {:induction false} ExecAllRunsPrefix(s: Server, session: nat, stmts: seq<string>)
    ensures var (t, err) := ExecAll(s, session, stmts);
            var k := FirstFailure(stmts, s.failures);
            var n := if k < |stmts| then k + 1 else k;
            && t.log == s.log + Queries(session, stmts[..n])
            && (err.Some? <==> k < |stmts|)
            && (k < |stmts| ==> err == Some(s.failures[stmts[k]]))
            && SameCatalogue(s, t)
    decreases |stmts|
  {
    if stmts != [] {
      var (s1, ok) := Execute(s, session, stmts[0]);
      assert s1.log == s.log + [Query(session, stmts[0])];
      assert SameCatalogue(s, s1);
      if ok {
        assert stmts[0] !in s.failures;
        assert ExecAll(s, session, stmts) == ExecAll(s1, session, stmts[1..]);
        ExecAllRunsPrefix(s1, session, stmts[1..]);
        var k1 := FirstFailure(stmts[1..], s1.failures);
        var k := FirstFailure(stmts, s.failures);
        assert k == k1 + 1;
        var n := if k < |stmts| then k + 1 else k;
        QueriesFirst(session, stmts, n);
        var q := Queries(session, stmts[1..][..n - 1]);
        assert (s.log + [Query(session, stmts[0])]) + q == s.log + ([Query(session, stmts[0])] + q);
      } else {
        assert stmts[..1] == [stmts[0]];
        assert Queries(session, stmts[..1]) == [Query(session, stmts[0])];
      }
    }
  }

  /** A rejection is reported with the session's mysqli_error() text after it. */
  lemma {:induction false} ExecAllReportsSessionError(s: Server, session: nat, stmts: seq<string>)
    ensures var (t, err) := ExecAll(s, session, stmts);
            err.Some? ==> err.value == t.ErrorOf(session)
    decreases |stmts|
  {
    if stmts != [] {
      var (s1, ok) := Execute(s, session, stmts[0]);
      if ok {
        ExecAllReportsSessionError(s1, session, stmts[1..]);
      }
    }
  }

  /** Running a list that succeeds throughout, then more, is running the whole list. */
  lemma {:induction false} ExecAllAppend(s: Server, session: nat, a: seq<string>, b: seq<string>)
    requires ExecAll(s, session, a).1.None?
    ensures ExecAll(s, session, a + b) == ExecAll(ExecAll(s, session, a).0, session, b)
    decreases |a|
  {
    if a == [] {
      assert a + b == b;
    } else {
      assert (a + b)[0] == a[0];
      assert (a + b)[1..] == a[1..] + b;
      var (s1, ok) := Execute(s, session, a[0]);
      assert ok;
      ExecAllAppend(s1, session, a[1..], b);
    }
  }

  /** The concatenation of a list of strings. */
  function Concat(pieces: seq<string>): string
  {
    if pieces == [] then "" else pieces[0] + Concat(pieces[1..])
  }

  lemma ConcatCons(x: string, rest: seq<string>)
    ensures Concat([x] + rest) == x + Concat(rest)
  {
    assert ([x] + rest)[1..] == rest;
  }

  /** The lines that reach the buffer. */
  function Kept(lines: seq<string>): seq<string>
  {
    if lines == [] then []
    else if Skipped(lines[0]) then Kept(lines[1..])
    else [lines[0]] + Kept(lines[1..])
  }

  /** The number of lines that close a statement. */
  function Closers(lines: seq<string>): nat
  {
    if lines == [] then 0
    else if !Skipped(lines[0]) && EndsStatement(lines[0]) then 1 + Closers(lines[1..])
    else Closers(lines[1..])
  }

  lemma AppendRegroup(a: string, b: string, c: string, d: string, e: string)
    requires c + d == e
    ensures ((a + b) + c) + d == a + (b + e)
  {
    assert ((a + b) + c) + d == (a + b) + (c + d);
  }

  /** Cutting loses nothing and adds nothing: statements and leftover spell out the kept lines, in order. */
  lemma {:induction false} SplitLosesNothing(buffer: string, lines: seq<string>)
    ensures Concat(SplitFrom(buffer, lines).done) + SplitFrom(buffer, lines).buffer == buffer + Concat(Kept(lines))
    decreases |lines|
  {
    if lines != [] {
      var l, tail := lines[0], lines[1..];
      var k := Concat(Kept(tail));
      if Skipped(l) {
        assert SplitFrom(buffer, lines) == SplitFrom(buffer, tail);
        assert Kept(lines) == Kept(tail);
        SplitLosesNothing(buffer, tail);
      } else if EndsStatement(l) {
        var rest := SplitFrom("", tail);
        assert SplitFrom(buffer, lines) == Pieces([buffer + l] + rest.done, rest.buffer);
        assert Kept(lines) == [l] + Kept(tail);
        SplitLosesNothing("", tail);
        assert "" + k == k;
        ConcatCons(buffer + l, rest.done);
        ConcatCons(l, Kept(tail));
        AppendRegroup(buffer, l, Concat(rest.done), rest.buffer, k);
      } else {
        assert SplitFrom(buffer, lines) == SplitFrom(buffer + l, tail);
        assert Kept(lines) == [l] + Kept(tail);
        SplitLosesNothing(buffer + l, tail);
        ConcatCons(l, Kept(tail));
        AppendRegroup(buffer, l, k, "", k);
        assert k + "" == k;
      }
    }
  }

  /** One statement is closed per kept line ending in `;`. */
  lemma {:induction false} SplitCountsClosers(buffer: string, lines: seq<string>)
    ensures |SplitFrom(buffer, lines).done| == Closers(lines)
    decreases |lines|
  {
    if lines != [] {
      if Skipped(lines[0]) {
        SplitCountsClosers(buffer, lines[1..]);
      } else if EndsStatement(lines[0]) {
        SplitCountsClosers("", lines[1..]);
      } else {
        SplitCountsClosers(buffer + lines[0], lines[1..]);
      }
    }
  }

  /** rtrim() is determined by its three defining properties. */
  lemma TrimEndUnique(s: string, r: string)
    requires r <= s
    requires r == "" || !IsBlank(r[|r| - 1])
    requires forall i :: |r| <= i < |s| ==> IsBlank(s[i])
    ensures TrimEnd(s) == r
  {
    var e := TrimEnd(s);
    TrimEndShape(s);
    assert |r| > 0 ==> r[|r| - 1] == s[|r| - 1];
    assert |e| > 0 ==> e[|e| - 1] == s[|e| - 1];
    if |e| < |r| {
      assert false;
    } else if |r| < |e| {
      assert false;
    }
    assert e == s[..|e|] && r == s[..|r|];
  }

  /** The boundary test only looks at the end: a line closes a statement iff, right-trimmed, it ends in `;`. */
  lemma EndsStatementIsTrailingTrim(line: string)
    ensures EndsStatement(line) <==> (TrimEnd(line) != "" && TrimEnd(line)[|TrimEnd(line)| - 1] == ';')
  {
    var e := TrimEnd(line);
    var t := TrimStart(e);
    TrimEndShape(line);
    TrimStartShape(e);
    if e != "" {
      assert !IsBlank(e[|e| - 1]);
      assert t != "" && t[|t| - 1] == e[|e| - 1];
    }
  }

  /** Text gathered before a closing line does not change where the statement ends. */
  lemma ClosingLineClosesBuffer(buffer: string, line: string)
    requires EndsStatement(line)
    ensures EndsStatement(buffer + line)
  {
    EndsStatementIsTrailingTrim(line);
    var e := TrimEnd(line);
    TrimEndShape(line);
    var x := buffer + line;
    assert e == line[..|e|];
    assert buffer + e <= x by {
      assert x[..|buffer| + |e|] == buffer + line[..|e|];
    }
    forall i | |buffer + e| <= i < |x| ensures IsBlank(x[i]) {
      assert x[i] == line[i - |buffer|];
    }
    TrimEndUnique(x, buffer + e);
    EndsStatementIsTrailingTrim(x);
  }

  /** Every closed statement, as a whole, ends in `;` once trimmed. */
  lemma {:induction false} ClosedStatementsEndInSemicolon(buffer: string, lines: seq<string>)
    ensures forall i :: 0 <= i < |SplitFrom(buffer, lines).done| ==> EndsStatement(SplitFrom(buffer, lines).done[i])
    decreases |lines|
  {
    if lines != [] {
      if Skipped(lines[0]) {
        ClosedStatementsEndInSemicolon(buffer, lines[1..]);
      } else if EndsStatement(lines[0]) {
        ClosedStatementsEndInSemicolon("", lines[1..]);
        ClosingLineClosesBuffer(buffer, lines[0]);
      } else {
        ClosedStatementsEndInSemicolon(buffer + lines[0], lines[1..]);
      }
    }
  }

  /** Cutting `a + c` is cutting `a`, then cutting `c` from the buffer `a` left behind. */
  lemma {:induction false} SplitConcat(buffer: string, a: seq<string>, c: seq<string>)
    ensures var p := SplitFrom(buffer, a);
            var q := SplitFrom(p.buffer, c);
            SplitFrom(buffer, a + c) == Pieces(p.done + q.done, q.buffer)
    decreases |a|
  {
    if a == [] {
      assert a + c == c;
    } else {
      var l := a[0];
      assert (a + c)[0] == l && (a + c)[1..] == a[1..] + c;
      if Skipped(l) {
        SplitConcat(buffer, a[1..], c);
      } else if EndsStatement(l) {
        SplitConcat("", a[1..], c);
        var r := SplitFrom("", a[1..]);
        var q := SplitFrom(r.buffer, c);
        assert [buffer + l] + (r.done + q.done) == ([buffer + l] + r.done) + q.done;
      } else {
        SplitConcat(buffer + l, a[1..], c);
      }
    }
  }

  /**
   * The loop over the dump, one line at a time in reading order: a skipped
   * line changes nothing; a kept line ending in `;` closes the buffer and that
   * line as one statement and empties the buffer; any other kept line is
   * appended to the buffer.
   */
  lemma SplitLineByLine(buffer: string, lines: seq<string>, line: string)
    ensures var p := SplitFrom(buffer, lines);
            SplitFrom(buffer, lines + [line]) ==
              if Skipped(line) then p
              else if EndsStatement(line) then Pieces(p.done + [p.buffer + line], "")
              else Pieces(p.done, p.buffer + line)
  {
    SplitConcat(buffer, lines, [line]);
    var p := SplitFrom(buffer, lines);
    assert [line][1..] == [];
    if Skipped(line) {
      assert p.done + [] == p.done;
    }
  }

  /**
   * The cut points: for a dump made of `a` followed by `c`, the statements
   * closed by the lines of `a` are the first statements of the whole dump,
   * and the buffer is empty right after a kept line ending in `;`.
   */
  lemma SplitCutsAtClosers(a: seq<string>, c: seq<string>)
    ensures SplitFrom("", a).done <= SplitFrom("", a + c).done
    ensures a != [] && !Skipped(a[|a| - 1]) && EndsStatement(a[|a| - 1]) ==> SplitFrom("", a).buffer == ""
  {
    SplitConcat("", a, c);
    var p := SplitFrom("", a);
    var q := SplitFrom(p.buffer, c).done;
    assert p.done <= p.done + q by {
      assert (p.done + q)[..|p.done|] == p.done;
    }
    if a != [] {
      var init, l := a[..|a| - 1], a[|a| - 1];
      assert a == init + [l];
      SplitLineByLine("", init, l);
    }
  }

  /** A statement spread over several lines is sent once, with its line ends; comment lines never reach the server. */
  lemma MultiLineDump()
    ensures Statements(["SELECT\n", "1;\n", "-- c\n", "SELECT 2;"]) == ["SELECT\n1;\n", "SELECT 2;"]
  {
    var l1, l2, l3, l4 := "SELECT\n", "1;\n", "-- c\n", "SELECT 2;";
    assert TrimEnd(l1) == "SELECT" && !EndsStatement(l1);
    assert l1[..2] == "SE" && !Skipped(l1);
    assert TrimEnd(l2) == "1;" && EndsStatement(l2);
    assert l2[..2] == "1;" && !Skipped(l2);
    assert Skipped(l3);
    assert EndsStatement(l4);
    assert l4[..2] == "SE" && !Skipped(l4);
    assert SplitFrom("", []) == Pieces([], "");
    assert SplitFrom("", [l4]) == Pieces(["" + l4], "");
    assert "" + l4 == l4;
    assert SplitFrom("", [l3, l4]) == SplitFrom("", [l4]);
    assert SplitFrom(l1, [l2, l3, l4]) == Pieces([l1 + l2] + [l4], "");
    assert SplitFrom("", [l1, l2, l3, l4]) == SplitFrom("" + l1, [l2, l3, l4]);
    assert "" + l1 == l1;
    assert l1 + l2 == "SELECT\n1;\n";
    assert SplitFrom("", [l1, l2, l3, l4]) == Pieces(["SELECT\n1;\n", l4], "");
  }

  /** A line holding only its terminator is gathered, and a whitespace-only leftover is still sent. */
  lemma NewlineOnlyLeftoverIsSent()
    ensures Statements(["\n"]) == ["\n"]
  {
    assert TrimEnd("\n") == "";
    assert !EndsStatement("\n");
    assert SplitFrom("", ["\n"]) == SplitFrom("\n", []);
  }

  /** A leftover reading "0" is falsy and is not sent. */
  lemma ZeroLeftoverIsDropped()
    ensures Statements(["0"]) == []
  {
    assert !EndsStatement("0");
    assert SplitFrom("", ["0"]) == SplitFrom("0", []);
  }

  /** Only `--` at column 0 marks a comment: an indented one is gathered as SQL. */
  lemma IndentedCommentIsSent()
    ensures Statements(["-- a;\n", " -- b;\n"]) == [" -- b;\n"]
  {
    assert Skipped("-- a;\n");
    assert " -- b;\n"[..2] == " -";
    assert !Skipped(" -- b;\n");
    assert TrimEnd(" -- b;\n") == " -- b;";
    assert TrimStart(" -- b;") == "-- b;";
    assert EndsStatement(" -- b;\n");
    assert SplitFrom("", [" -- b;\n"]) == Pieces(["" + " -- b;\n"], "");
    assert "" + " -- b;\n" == " -- b;\n";
  }
}
