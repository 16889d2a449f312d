/** The command interpreter of the line-oriented key-value server
    (`handleConnection` in content/src/go-tcp-server/stateful-server.go): each
    received line is trimmed, cut at single spaces, dispatched on its first
    token (GET, SET, INCR, DEL, STOP/QUIT) and answered with exactly one reply
    line, reading and updating the server's `map[string]string` in place. */
module StatefulServer {
  import opened GoStrings
  import opened GoStrconv

  type Store = map<string, string>

  /** `db[key]` in Go: the stored value, or the zero value "" when absent. */
  function Lookup(db: Store, key: string): string {
    if key in db then db[key] else ""
  }

  predicate IsError(reply: string) {
    |reply| >= 3 && reply[..3] == "ERR"
  }

  /** STOP and QUIT end the connection; the keyword is case-sensitive. */
  predicate IsStopLine(line: string) {
    Tokens(line)[0] == "STOP" || Tokens(line)[0] == "QUIT"
  }

  /** What one received line does: either the connection is closed, or the
      server answers `reply` and the store becomes `db`. */
  datatype Outcome = Closed | Replied(reply: string, db: Store)

  /** The GET arm: the stored value, "" for an absent key; never mutates. */
  function Get(db: Store, parts: seq<string>): Outcome {
    if |parts| > 1 then Replied(Lookup(db, parts[1]), db)
    else Replied("ERR wrong number of arguments for 'get' command", db)
  }

  /** The SET arm: stores token 2 under token 1; later tokens are ignored. */
  function Set(db: Store, parts: seq<string>): Outcome {
    if |parts| > 2 then Replied("OK", db[parts[1] := parts[2]])
    else Replied("ERR wrong number of arguments for 'set' command", db)
  }

  /** The INCR arm: an absent key becomes "1"; a value Atoi accepts becomes
      the decimal of its 64-bit successor, which is also the reply; any other
      value is left alone with an error reply. */
  function Incr(db: Store, parts: seq<string>): Outcome {
    if |parts| > 1 then
      var key := parts[1];
      if key in db then
        match Atoi(db[key])
        case None => Replied("ERR value is not an integer or out of range", db)
        case Some(n) => var response := Itoa(Inc64(n)); Replied(response, db[key := response])
      else
        Replied("1", db[key := "1"])
    else Replied("ERR wrong number of arguments for 'incr' command", db)
  }

  /** The DEL arm: "1" and the key removed when present, "0" otherwise. */
  function Del(db: Store, parts: seq<string>): Outcome {
    if |parts| > 1 then
      if parts[1] in db then Replied("1", db - {parts[1]}) else Replied("0", db)
    else Replied("ERR wrong number of arguments for 'del' command", db)
  }

  /** The specification of one pass of the connection loop over the store
      `db`: the switch on the first token of the trimmed, split line. */
  function Step(db: Store, line: string): Outcome {
    var parts := Tokens(line);
    var command := parts[0];
    if command == "STOP" || command == "QUIT" then Closed
    else if command == "GET" then Get(db, parts)
    else if command == "SET" then Set(db, parts)
    else if command == "INCR" then Incr(db, parts)
    else if command == "DEL" then Del(db, parts)
    else Replied("ERR unknown command", db)
  }

  /** Exactly the STOP and QUIT lines close the connection. */
  lemma StepClosed(db: Store, line: string)
    ensures Step(db, line).Closed? <==> IsStopLine(line)
  {
  }

  /** The result of serving a sequence of lines: what was written back to the
      client, the final store, and whether a STOP/QUIT closed the connection. */
  datatype Session = Session(writes: seq<string>, db: Store, closed: bool)

  /** The specification of the connection loop over the lines a client sends:
      one write of `reply + "\n"` per line up to the first STOP/QUIT, which
      writes nothing and ends the loop; lines after it are never read. */
  function Run(db: Store, lines: seq<string>): (s: Session)
    decreases |lines|
    ensures |s.writes| <= |lines|
    ensures !s.closed ==> |s.writes| == |lines|
  {
    if lines == [] then
      Session([], db, false)
    else if IsStopLine(lines[0]) then
      Session([], db, true)
    else
      StepClosed(db, lines[0]);
      var o := Step(db, lines[0]);
      var rest := Run(o.db, lines[1..]);
      Session([o.reply + "\n"] + rest.writes, rest.db, rest.closed)
  }

  /** The server's state: the one map every connection reads and updates. */
  class Server {
    var db: Store

    /** `make(map[string]string)`. */
    constructor ()
      ensures db == map[]
    {
      db := map[];
    }

    /** One pass of the loop body of `handleConnection` after the read: trim,
        split, dispatch, update `db` in place. `quit` is the `return` of the
        STOP/QUIT arm, which leaves `db` untouched. */
    method Execute(netData: string) returns (response: string, quit: bool)
      modifies this
      ensures Step(old(db), netData) == if quit then Closed else Replied(response, db)
      ensures quit ==> db == old(db)
    {
      response, quit := "", false;
      var commandString := TrimSpace(netData);
      var parts := Split(commandString);
      var command := parts[0];

      if command == "STOP" || command == "QUIT" {
        quit := true;
      } else if command == "GET" {
        if |parts| > 1 {
          var key := parts[1];
          response := if key in db then db[key] else "";
        } else {
          response := "ERR wrong number of arguments for 'get' command";
        }
      } else if command == "SET" {
        if |parts| > 2 {
          var key := parts[1];
          var value := parts[2];
          db := db[key := value];
          response := "OK";
        } else {
          response := "ERR wrong number of arguments for 'set' command";
        }
      } else if command == "INCR" {
        if |parts| > 1 {
          var key := parts[1];
          if key in db {
            var value := db[key];
            var intValue := Atoi(value);
            if intValue.None? {
              response := "ERR value is not an integer or out of range";
            } else {
              response := Itoa(Inc64(intValue.value));
              db := db[key := response];
            }
          } else {
            response := "1";
            db := db[key := response];
          }
        } else {
          response := "ERR wrong number of arguments for 'incr' command";
        }
      } else if command == "DEL" {
        if |parts| > 1 {
          var key := parts[1];
          if key in db {
            db := db - {key};
            response := "1";
          } else {
            response := "0";
          }
        } else {
          response := "ERR wrong number of arguments for 'del' command";
        }
      } else {
        response := "ERR unknown command";
      }
    }

    /** The loop of `handleConnection` over the lines the client sends, in
        order: each reply is written followed by "\n"; STOP/QUIT returns
        without a write, and running out of lines is the read error that ends
        the loop. */
    method Serve(lines: seq<string>) returns (writes: seq<string>)
      modifies this
      ensures writes == Run(old(db), lines).writes
      ensures db == Run(old(db), lines).db
    {
      writes := [];
      ghost var total := Run(db, lines);
      var i := 0;
      while i < |lines|
        invariant 0 <= i <= |lines|
        invariant total.writes == writes + Run(db, lines[i..]).writes
        invariant total.db == Run(db, lines[i..]).db
      {
        ghost var before := db;
        StepClosed(db, lines[i]);
        assert lines[i..][1..] == lines[i + 1..];
        var response, quit := Execute(lines[i]);
        if quit {
          assert writes + [] == writes;
          return;
        }
        assert writes + [response + "\n"] + Run(db, lines[i + 1..]).writes == writes + Run(before, lines[i..]).writes;
        writes := writes + [response + "\n"];
        i := i + 1;
      }
      assert writes + [] == writes;
    }
  }
}
