/** What the command interpreter promises, stated over the specification
    functions `Step` (one line) and `Run` (a connection's lines): the effect
    and reply of each command, the error paths, the end of a connection at
    STOP/QUIT, and whole sessions such as repeated INCRs. */
module ServerProperties {
  import opened GoStrings
  import opened GoStrconv
  import opened StatefulServer

  /** What a list of tokens looks like: at least one part, no part holding a
      space (parts may be empty, from two adjacent spaces), and the parts
      joined by single spaces neither start nor end with white space (a part
      may hold a tab or another white-space character inside). */
  predicate IsTokens(parts: seq<string>) {
    && |parts| >= 1
    && (forall i | 0 <= i < |parts| :: ' ' !in parts[i])
    && (Join(parts) == [] || (!IsSpace(Join(parts)[0]) && !IsSpace(Join(parts)[|Join(parts)| - 1])))
  }

  /* ---------- From the wire to the tokens ---------- */

  /** Token lists joined by single spaces, with any white space around them
      (such as the trailing "\r\n"), are tokenised into exactly those parts. */
  lemma TokensOfLine(pre: string, parts: seq<string>, post: string)
    requires AllSpace(pre) && AllSpace(post) && IsTokens(parts)
    ensures Tokens(pre + Join(parts) + post) == parts
  {
    TrimSpaceOf(pre, Join(parts), post);
    SplitJoin(parts);
  }

  /** Conversely every line has that shape: its tokens form a token list, and
      the line is their join framed by white space. Together with
      TokensOfLine, the lemmas below stated over `pre + Join(parts) + post`
      cover every line the server can receive. */
  lemma TokensCover(line: string)
    ensures IsTokens(Tokens(line))
    ensures exists i | 0 <= i <= |line| - |Join(Tokens(line))| ::
      && line[i..i + |Join(Tokens(line))|] == Join(Tokens(line))
      && AllSpace(line[..i]) && AllSpace(line[i + |Join(Tokens(line))|..])
  {
    SplitParts(TrimSpace(line));
    TrimSpaceFrames(line);
  }

  /* ---------- One line at a time ---------- */

  /** GET replies with the stored value, or "" when the key is absent, and
      never changes the store; tokens after the key are ignored. */
  lemma GetLine(db: Store, pre: string, key: string, extra: seq<string>, post: string)
    requires AllSpace(pre) && AllSpace(post) && IsTokens(["GET", key] + extra)
    ensures Step(db, pre + Join(["GET", key] + extra) + post) == Replied(if key in db then db[key] else "", db)
  {
    TokensOfLine(pre, ["GET", key] + extra, post);
  }

  /** SET stores its value under its key, leaves every other key as it was
      and replies OK; tokens after the value are ignored. */
  lemma SetLine(db: Store, pre: string, key: string, value: string, extra: seq<string>, post: string)
    requires AllSpace(pre) && AllSpace(post) && IsTokens(["SET", key, value] + extra)
    ensures Step(db, pre + Join(["SET", key, value] + extra) + post) == Replied("OK", db[key := value])
  {
    TokensOfLine(pre, ["SET", key, value] + extra, post);
  }

  /** DEL on a present key removes exactly that key and replies "1"; on an
      absent key it replies "0" and changes nothing. */
  lemma DelLine(db: Store, pre: string, key: string, extra: seq<string>, post: string)
    requires AllSpace(pre) && AllSpace(post) && IsTokens(["DEL", key] + extra)
    ensures key in db ==> Step(db, pre + Join(["DEL", key] + extra) + post) == Replied("1", db - {key})
    ensures key !in db ==> Step(db, pre + Join(["DEL", key] + extra) + post) == Replied("0", db)
  {
    TokensOfLine(pre, ["DEL", key] + extra, post);
  }

  /** INCR on an absent key stores "1" and replies "1". */
  lemma IncrAbsent(db: Store, pre: string, key: string, extra: seq<string>, post: string)
    requires AllSpace(pre) && AllSpace(post) && IsTokens(["INCR", key] + extra) && key !in db
    ensures Step(db, pre + Join(["INCR", key] + extra) + post) == Replied("1", db[key := "1"])
  {
    TokensOfLine(pre, ["INCR", key] + extra, post);
  }

  /** INCR on a stored integer n stores the decimal form of n + 1 and replies
      with that same string; at the largest 64-bit integer it wraps to the
      smallest. */
  lemma IncrInteger(db: Store, pre: string, key: string, n: int, extra: seq<string>, post: string)
    requires AllSpace(pre) && AllSpace(post) && IsTokens(["INCR", key] + extra)
    requires key in db && Atoi(db[key]) == Some(n)
    ensures n < MaxInt64 ==> Step(db, pre + Join(["INCR", key] + extra) + post) == Replied(Itoa(n + 1), db[key := Itoa(n + 1)])
    ensures n == MaxInt64 ==> Step(db, pre + Join(["INCR", key] + extra) + post) == Replied(Itoa(MinInt64), db[key := Itoa(MinInt64)])
  {
    TokensOfLine(pre, ["INCR", key] + extra, post);
  }

  /** INCR on a value that is not a 64-bit decimal integer replies with the
      error and leaves the store unchanged. */
  lemma IncrNotInteger(db: Store, pre: string, key: string, extra: seq<string>, post: string)
    requires AllSpace(pre) && AllSpace(post) && IsTokens(["INCR", key] + extra)
    requires key in db && Atoi(db[key]).None?
    ensures Step(db, pre + Join(["INCR", key] + extra) + post) == Replied("ERR value is not an integer or out of range", db)
  {
    TokensOfLine(pre, ["INCR", key] + extra, post);
  }

  /** The arity error of each keyword, naming the command in lower case. */
  function ArityError(command: string): string {
    if command == "GET" then "ERR wrong number of arguments for 'get' command"
    else if command == "SET" then "ERR wrong number of arguments for 'set' command"
    else if command == "INCR" then "ERR wrong number of arguments for 'incr' command"
    else "ERR wrong number of arguments for 'del' command"
  }

  /** GET, INCR or DEL without a key, or SET without a value, with any white
      space around the line, is answered with the arity error of that command
      and changes nothing. */
  lemma MissingArguments(db: Store, pre: string, parts: seq<string>, post: string)
    requires AllSpace(pre) && AllSpace(post) && IsTokens(parts)
    requires parts[0] == "GET" || parts[0] == "SET" || parts[0] == "INCR" || parts[0] == "DEL"
    requires |parts| < (if parts[0] == "SET" then 3 else 2)
    ensures Step(db, pre + Join(parts) + post) == Replied(ArityError(parts[0]), db)
  {
    TokensOfLine(pre, parts, post);
  }

  /** Any first token other than the six upper-case keywords, lower-case
      commands included, is answered "ERR unknown command" and changes
      nothing. */
  lemma UnknownLine(db: Store, pre: string, parts: seq<string>, post: string)
    requires AllSpace(pre) && AllSpace(post) && IsTokens(parts)
    requires parts[0] !in {"STOP", "QUIT", "GET", "SET", "INCR", "DEL"}
    ensures Step(db, pre + Join(parts) + post) == Replied("ERR unknown command", db)
  {
    TokensOfLine(pre, parts, post);
  }

  /** An empty or all-blank line is an unknown command, not a close. */
  lemma BlankLine(db: Store, line: string)
    requires AllSpace(line)
    ensures Step(db, line) == Replied("ERR unknown command", db)
  {
    assert line + [] + [] == line;
    TrimSpaceOf(line, [], []);
    assert Tokens(line) == [""];
  }

  /** STOP and QUIT, whatever follows them, close the connection. */
  lemma StopLine(db: Store, pre: string, parts: seq<string>, post: string)
    requires AllSpace(pre) && AllSpace(post) && IsTokens(parts)
    requires parts[0] == "STOP" || parts[0] == "QUIT"
    ensures Step(db, pre + Join(parts) + post).Closed?
  {
    TokensOfLine(pre, parts, post);
  }

  /** Two adjacent spaces give an empty token. */
  lemma TokensOfDoubledSpace()
    ensures Tokens("SET a  b") == ["SET", "a", "", "b"]
  {
    var parts := ["SET", "a", "", "b"];
    assert parts[1..][1..][1..] == ["b"];
    assert Join(parts[1..][1..]) == "" + " " + "b";
    assert Join(parts[1..]) == "a" + " " + " b";
    assert Join(parts) == "SET" + " " + "a  b" == "SET a  b";
    assert forall k | 0 <= k < |parts| :: ' ' !in parts[k];
    assert [] + Join(parts) + [] == "SET a  b";
    TokensOfLine([], parts, []);
  }

  /** "SET a  b" stores the empty value under "a"; the "b" is an ignored
      extra token. */
  lemma SetOfEmptyValue(db: Store)
    ensures Step(db, "SET a  b") == Replied("OK", db["a" := ""])
  {
    TokensOfDoubledSpace();
    var parts := Tokens("SET a  b");
    assert Step(db, "SET a  b") == Set(db, parts);
  }

  /** A tab is white space to the trim but not a separator to the split:
      "GET\ta" is the single token "GET\ta", an unknown command. */
  lemma TabIsNoSeparator(db: Store)
    ensures Step(db, "GET\ta") == Replied("ERR unknown command", db)
  {
    var parts := ["GET\ta"];
    assert Join(parts) == "GET\ta";
    assert ' ' !in parts[0];
    assert [] + Join(parts) + [] == "GET\ta";
    UnknownLine(db, [], parts, []);
  }

  /** Every line changes at most the key in its token 1: whatever else is
      stored stays as it was. */
  lemma StepLocality(db: Store, line: string)
    requires Step(db, line).Replied?
    ensures Step(db, line).db == db || (|Tokens(line)| > 1 && Step(db, line).db - {Tokens(line)[1]} == db - {Tokens(line)[1]})
  {
    var parts := Tokens(line);
    var d := Step(db, line).db;
    if d != db {
      var key := parts[1];
      if parts[0] == "DEL" {
        assert d == db - {key};
      } else {
        assert d == db[key := d[key]];
      }
    }
  }

  /** A reply starting with "ERR" never comes with a change of the store. */
  lemma ErrorsChangeNothing(db: Store, line: string)
    requires Step(db, line).Replied? && IsError(Step(db, line).reply)
    ensures Step(db, line).db == db
  {
    var parts := Tokens(line);
    if |parts| > 1 && parts[1] in db {
      match Atoi(db[parts[1]])
      case Some(n) =>
        AtoiAccepts(db[parts[1]]);
        ItoaShape(Inc64(n));
      case None =>
    }
  }

  /* ---------- Whole connections ---------- */

  /** The loop answers every line before the first STOP/QUIT and stops
      there: no answered line is a STOP/QUIT, and a closed connection ended
      at one. */
  lemma {:induction false} RunStopsAtFirstStopLine(db: Store, lines: seq<string>)
    decreases |lines|
    ensures forall i | 0 <= i < |Run(db, lines).writes| :: !IsStopLine(lines[i])
    ensures Run(db, lines).closed ==> |Run(db, lines).writes| < |lines| && IsStopLine(lines[|Run(db, lines).writes|])
  {
    if lines != [] && !IsStopLine(lines[0]) {
      StepClosed(db, lines[0]);
      var o := Step(db, lines[0]);
      RunStopsAtFirstStopLine(o.db, lines[1..]);
      var rest := Run(o.db, lines[1..]);
      assert |Run(db, lines).writes| == 1 + |rest.writes|;
      forall i | 1 <= i < |Run(db, lines).writes|
        ensures lines[i] == lines[1..][i - 1]
      {
      }
    }
  }

  /** Every write is a reply followed by the newline. */
  lemma {:induction false} RunWritesEndInNewline(db: Store, lines: seq<string>)
    decreases |lines|
    ensures forall i | 0 <= i < |Run(db, lines).writes| ::
      |Run(db, lines).writes[i]| >= 1 && Run(db, lines).writes[i][|Run(db, lines).writes[i]| - 1] == '\n'
  {
    if lines != [] && !IsStopLine(lines[0]) {
      StepClosed(db, lines[0]);
      var o := Step(db, lines[0]);
      RunWritesEndInNewline(o.db, lines[1..]);
      var w := Run(db, lines).writes;
      var rest := Run(o.db, lines[1..]).writes;
      var first := o.reply + "\n";
      assert first[|first| - 1] == '\n';
      assert w == [first] + rest;
      forall i | 1 <= i < |w|
        ensures w[i] == rest[i - 1]
      {
      }
    }
  }

  /** Serving `a` then `b` is serving `a + b`; once a STOP/QUIT has closed
      the connection, later lines are never read. */
  lemma {:induction false} RunAppend(db: Store, a: seq<string>, b: seq<string>)
    decreases |a|
    ensures var r := Run(db, a);
      Run(db, a + b) == if r.closed then r else
        var t := Run(r.db, b);
        Session(r.writes + t.writes, t.db, t.closed)
  {
    if a == [] {
      assert a + b == b;
    } else {
      assert (a + b)[0] == a[0];
      if !IsStopLine(a[0]) {
        StepClosed(db, a[0]);
        var o := Step(db, a[0]);
        assert (a + b)[1..] == a[1..] + b;
        RunAppend(o.db, a[1..], b);
        var r := Run(o.db, a[1..]);
        if !r.closed {
          var t := Run(r.db, b);
          assert [o.reply + "\n"] + r.writes + t.writes == [o.reply + "\n"] + (r.writes + t.writes);
        }
      }
    }
  }

  /** One answered line at the head of a connection. */
  lemma RunCons(db: Store, line: string, rest: seq<string>, reply: string, d: Store)
    requires Step(db, line) == Replied(reply, d)
    ensures Run(db, [line] + rest) == Session([reply + "\n"] + Run(d, rest).writes, Run(d, rest).db, Run(d, rest).closed)
  {
    StepClosed(db, line);
    assert ([line] + rest)[0] == line;
    assert ([line] + rest)[1..] == rest;
  }

  /** The line `line` sent n times. */
  function Repeat(line: string, n: nat): (lines: seq<string>)
    ensures |lines| == n
    ensures forall i | 0 <= i < n :: lines[i] == line
  {
    if n == 0 then [] else Repeat(line, n - 1) + [line]
  }

  /** The expected replies of n INCRs of one key: "1\n", "2\n", ..., "n\n". */
  function Counts(n: nat): (c: seq<string>)
    ensures |c| == n
    ensures forall i | 0 <= i < n :: c[i] == Itoa(i + 1) + "\n"
  {
    if n == 0 then [] else Counts(n - 1) + [Itoa(n) + "\n"]
  }

  /** A line whose tokens are exactly INCR and a key runs the INCR arm. */
  lemma StepOfIncr(db: Store, line: string, key: string)
    requires Tokens(line) == ["INCR", key]
    ensures Step(db, line) == Incr(db, ["INCR", key])
  {
  }

  /** The n-th INCR of a key that was absent finds n - 1 stored (nothing
      for the first) and stores and replies n. */
  lemma IncrCounts(db: Store, key: string, line: string, n: nat)
    requires Tokens(line) == ["INCR", key] && key !in db && 1 <= n <= MaxInt64
    ensures Step(if n == 1 then db else db[key := Itoa(n - 1)], line) == Replied(Itoa(n), db[key := Itoa(n)])
  {
    if n == 1 {
      StepOfIncr(db, line, key);
      assert Itoa(1) == "1";
    } else {
      var d := db[key := Itoa(n - 1)];
      StepOfIncr(d, line, key);
      AtoiOfItoa(n - 1);
      assert Atoi(d[key]) == Some(n - 1);
      assert Inc64(n - 1) == n;
      assert d[key := Itoa(n)] == db[key := Itoa(n)];
    }
  }

  /** A connection of one answered line. */
  lemma RunSingle(db: Store, line: string, reply: string, d: Store)
    requires Step(db, line) == Replied(reply, d)
    ensures Run(db, [line]) == Session([reply + "\n"], d, false)
  {
    RunCons(db, line, [], reply, d);
    assert [line] + [] == [line];
    assert Run(d, []) == Session([], d, false);
  }

  /** n consecutive INCRs of a key that was absent reply 1, 2, ..., n and
      leave the decimal n stored under it (all other keys untouched). */
  lemma {:induction false} IncrementsFromAbsent(db: Store, key: string, line: string, n: nat)
    requires Tokens(line) == ["INCR", key] && key !in db && n <= MaxInt64
    ensures Run(db, Repeat(line, n)) == Session(Counts(n), if n == 0 then db else db[key := Itoa(n)], false)
  {
    if n > 0 {
      var before := Repeat(line, n - 1);
      IncrementsFromAbsent(db, key, line, n - 1);
      RunAppend(db, before, [line]);
      var d := if n == 1 then db else db[key := Itoa(n - 1)];
      IncrCounts(db, key, line, n);
      RunSingle(d, line, Itoa(n), db[key := Itoa(n)]);
    }
  }

  /** Last write wins: after SET k v1 and SET k v2, GET k replies v2. */
  lemma LastWriteWins(db: Store, key: string, v1: string, v2: string, l1: string, l2: string, l3: string)
    requires Tokens(l1) == ["SET", key, v1] && Tokens(l2) == ["SET", key, v2] && Tokens(l3) == ["GET", key]
    ensures Run(db, [l1, l2, l3]) == Session(["OK\n", "OK\n", v2 + "\n"], db[key := v2], false)
  {
    var d1 := db[key := v1];
    var d2 := d1[key := v2];
    assert d2 == db[key := v2];
    assert Step(d2, l3) == Replied(v2, d2);
    RunCons(d2, l3, [], v2, d2);
    RunCons(d1, l2, [l3], "OK", d2);
    RunCons(db, l1, [l2, l3], "OK", d1);
    assert [l3] + [] == [l3];
    assert [l2] + [l3] == [l2, l3];
    assert [l1] + [l2, l3] == [l1, l2, l3];
    assert Run(d2, []) == Session([], d2, false);
    assert "OK" + "\n" == "OK\n";
  }

  /** DEL k then GET k: the key is gone and GET sees the empty string. */
  lemma DelThenGet(db: Store, key: string, l2: string, l3: string)
    requires Tokens(l2) == ["DEL", key] && Tokens(l3) == ["GET", key] && key in db
    ensures Run(db, [l2, l3]) == Session(["1\n", "\n"], db - {key}, false)
  {
    var d := db - {key};
    assert Step(d, l3) == Replied("", d);
    RunCons(d, l3, [], "", d);
    RunCons(db, l2, [l3], "1", d);
    assert [l3] + [] == [l3];
    assert [l2] + [l3] == [l2, l3];
    assert Run(d, []) == Session([], d, false);
    assert "1" + "\n" == "1\n" && "" + "\n" == "\n";
  }

  /** SET k 1 then INCR k: replies OK and 2, and leaves "2" stored. */
  lemma SetThenIncr(db: Store, key: string, l0: string, l1: string)
    requires Tokens(l0) == ["SET", key, "1"] && Tokens(l1) == ["INCR", key]
    ensures Run(db, [l0, l1]) == Session(["OK\n", "2\n"], db[key := "2"], false)
  {
    var d1 := db[key := "1"];
    var d2 := db[key := "2"];
    assert Atoi("1") == Some(1) && Itoa(2) == "2";
    assert d1[key := "2"] == d2;
    assert Step(d1, l1) == Replied("2", d2);
    RunCons(d1, l1, [], "2", d2);
    RunCons(db, l0, [l1], "OK", d1);
    assert [l1] + [] == [l1];
    assert [l0] + [l1] == [l0, l1];
    assert Run(d2, []) == Session([], d2, false);
    assert "OK" + "\n" == "OK\n" && "2" + "\n" == "2\n";
  }

  /** SET k 1, INCR k, DEL k, GET k reply OK, 2, 1 and the empty string, and
      leave the store without k. */
  lemma SetIncrDelGet(db: Store, key: string, l0: string, l1: string, l2: string, l3: string)
    requires Tokens(l0) == ["SET", key, "1"] && Tokens(l1) == ["INCR", key]
    requires Tokens(l2) == ["DEL", key] && Tokens(l3) == ["GET", key]
    ensures Run(db, [l0, l1, l2, l3]) == Session(["OK\n", "2\n", "1\n", "\n"], db - {key}, false)
  {
    var d2 := db[key := "2"];
    SetThenIncr(db, key, l0, l1);
    DelThenGet(d2, key, l2, l3);
    RunAppend(db, [l0, l1], [l2, l3]);
    assert [l0, l1] + [l2, l3] == [l0, l1, l2, l3];
    assert d2 - {key} == db - {key};
  }

  /** The session SET a 1, INCR a, DEL a, GET a as a client types it, each
      line ending in "\n", and the tokens of each line. */
  const ScenarioLines: seq<string> := ["SET a 1\n", "INCR a\n", "DEL a\n", "GET a\n"]
  const ScenarioWords: seq<seq<string>> := [["SET", "a", "1"], ["INCR", "a"], ["DEL", "a"], ["GET", "a"]]
  const ScenarioJoined: seq<string> := ["SET a 1", "INCR a", "DEL a", "GET a"]

  lemma ScenarioTokens(i: nat)
    requires i < 4
    ensures Tokens(ScenarioLines[i]) == ScenarioWords[i]
  {
    var words := ScenarioWords[i];
    assert Join(words) == ScenarioJoined[i];
    assert forall k | 0 <= k < |words| :: ' ' !in words[k];
    assert ScenarioLines[i] == [] + Join(words) + "\n";
    TokensOfLine([], ScenarioWords[i], "\n");
  }

  lemma Scenario(db: Store)
    ensures Run(db, ScenarioLines) == Session(["OK\n", "2\n", "1\n", "\n"], db - {"a"}, false)
  {
    ScenarioTokens(0);
    ScenarioTokens(1);
    ScenarioTokens(2);
    ScenarioTokens(3);
    SetIncrDelGet(db, "a", ScenarioLines[0], ScenarioLines[1], ScenarioLines[2], ScenarioLines[3]);
  }

  /** INCR of "abc" is refused and a following GET still sees "abc". */
  lemma IncrOfTextThenGet(db: Store, key: string, l1: string, l2: string)
    requires Tokens(l1) == ["INCR", key] && Tokens(l2) == ["GET", key]
    ensures Run(db[key := "abc"], [l1, l2])
      == Session(["ERR value is not an integer or out of range\n", "abc\n"], db[key := "abc"], false)
  {
    var d := db[key := "abc"];
    assert !IsDigit('a');
    assert Atoi("abc").None?;
    assert Step(d, l1) == Replied("ERR value is not an integer or out of range", d);
    RunCons(d, l2, [], "abc", d);
    RunCons(d, l1, [l2], "ERR value is not an integer or out of range", d);
    assert [l2] + [] == [l2];
    assert [l1] + [l2] == [l1, l2];
    assert Run(d, []) == Session([], d, false);
    assert "abc" + "\n" == "abc\n";
    assert "ERR value is not an integer or out of range" + "\n" == "ERR value is not an integer or out of range\n";
  }
}
