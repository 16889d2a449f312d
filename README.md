# Stateful TCP key-value server: the command interpreter

This project models the command interpreter of the small Redis-like server in
`content/src/go-tcp-server/stateful-server.go`. It is the body of
`handleConnection`, between reading a line from the client and writing the
reply. For each line the server:

1. trims the surrounding white space (`strings.TrimSpace`);
2. cuts the result at every single space (`strings.Split(…, " ")`), so two
   adjacent spaces give an empty token and an empty line gives `[""]`;
3. switches on token 0, case-sensitively: `STOP`/`QUIT` end the connection,
   `GET`, `SET`, `INCR` and `DEL` read or update the server's
   `map[string]string`, and anything else is an unknown command;
4. writes exactly one reply, followed by `"\n"`.

`strings.TrimSpace` removes white space at both ends of the line (line 26).
Every arm that reads `parts[1]` or `parts[2]` first checks `len(parts)`, DEL
included (line 72), so no line can index past the tokens.

The model has four modules:

- `GoStrings` (`go_strings.dfy`) models `strings.TrimSpace`, with Go's
  `unicode.IsSpace` as the set of white-space characters. It also models
  `strings.Split` with the separator `" "`, and `strings.Join` as Split's
  inverse.
- `GoStrconv` (`go_strconv.dfy`) models `strconv.Atoi` and `strconv.Itoa`.
  Atoi accepts an optional sign and one or more ASCII digits, and it rejects a
  value outside the 64-bit `int` range. Itoa returns the canonical decimal.
  The module also models the 64-bit wrap-around of `intValue + 1`.
- `StatefulServer` (`stateful_server.dfy`) is the interpreter.
  - `Step` is the pure specification of one line: the outcome is either
    `Closed` or a reply together with the new map.
  - `Run` is the specification of a connection's sequence of lines.
  - The class `Server` holds the map `db`. Its method `Execute` mirrors the
    `switch` statement and updates `db` in place. It is proved equal to
    `Step`.
  - The method `Serve` is the `for` loop over the received lines. It is
    proved equal to `Run`.
- `ServerProperties` (`server_properties.dfy`) states what each command
  does and what its error paths do. It also covers the end of a connection at
  STOP/QUIT and whole sessions.
  The per-command lemmas are stated over a *framed token list*: a line
  `pre + Join(parts) + post` where `pre` and `post` are white space and
  `parts` satisfies `IsTokens`. Parts hold no space but may be empty or hold
  a tab. Their join neither starts nor ends with white space.
  `TokensCover` shows that every line has such a form, and `TokensOfLine`
  that its `parts` are then exactly the line's tokens.

Integers are unbounded in Dafny, so the 64-bit behaviour is written out. INCR
on a value outside the 64-bit range gets the "not an integer or out of range"
error, because `Atoi` fails. INCR on 9223372036854775807 stores and replies
-9223372036854775808 (Go's `int` is taken to be 64 bits wide).

## Model

| member | source | states |
|---|---|---|
| GoStrings.TrimSpace | content/src/go-tcp-server/stateful-server.go:26 | the trimmed line is no longer than the input and neither starts nor ends with white space |
| GoStrings.TrimSpaceFrames | content/src/go-tcp-server/stateful-server.go:26 | the trimmed line is a contiguous slice of the input, and everything removed before and after it is white space |
| GoStrings.TrimSpaceOf | content/src/go-tcp-server/stateful-server.go:26 | white space around a middle part that neither starts nor ends with white space is exactly what is removed, so the contract above determines the result |
| GoStrings.TrimSpaceIdempotent | content/src/go-tcp-server/stateful-server.go:26 | trimming a trimmed line changes nothing |
| GoStrings.Split | content/src/go-tcp-server/stateful-server.go:27-28 | Split always returns at least one part, so `parts[0]` exists even for the empty line |
| GoStrings.SplitParts | content/src/go-tcp-server/stateful-server.go:27 | no part contains a space, and joining the parts with single spaces rebuilds the line |
| GoStrings.SplitJoin | content/src/go-tcp-server/stateful-server.go:27 | splitting a join of space-free parts gives back exactly those parts, empty ones included |
| GoStrings.JoinInjective | content/src/go-tcp-server/stateful-server.go:27 | two lists of space-free parts that join to the same line are equal, so the cut is unique |
| GoStrings.Tokens | content/src/go-tcp-server/stateful-server.go:26-28 | the token list of any line, blank or not, has a token 0 |
| GoStrconv.Wrap64 | content/src/go-tcp-server/stateful-server.go:61 | two's-complement folding: the result lies in the 64-bit range, is congruent to the input modulo 2^64, and leaves in-range values alone |
| GoStrconv.Inc64IsWrappedSuccessor | content/src/go-tcp-server/stateful-server.go:61 | `intValue + 1` is the successor folded into 64 bits: the largest value wraps to the smallest, and the result stays in range |
| GoStrconv.Inc64 | content/src/go-tcp-server/stateful-server.go:61 | `intValue + 1` on the 64-bit `int`; no contract of its own, characterised by Inc64IsWrappedSuccessor |
| GoStrconv.AtoiAccepts | content/src/go-tcp-server/stateful-server.go:57-58 | Atoi succeeds exactly on a non-empty string of digits with at most one leading sign (not alone) whose value fits 64 bits; a '-' gives a value at most 0, anything else a value at least 0 |
| GoStrconv.ParseDecimal | content/src/go-tcp-server/stateful-server.go:57 | the decimal syntax of `strconv.Atoi` (optional sign, one or more ASCII digits) without the range check; no contract of its own, characterised by ParseDecimalOfDigits, ParseDecimalOfNegative and ItoaOfCanonical |
| GoStrconv.Atoi | content/src/go-tcp-server/stateful-server.go:57-58 | `strconv.Atoi`, with None for the error; no contract of its own, characterised by AtoiAccepts and AtoiOfItoa |
| GoStrconv.Itoa | content/src/go-tcp-server/stateful-server.go:61 | `strconv.Itoa`; no contract of its own, characterised by ItoaShape, ItoaIsCanonical, ItoaInjective, AtoiOfItoa and ItoaOfCanonical |
| GoStrconv.ItoaShape | content/src/go-tcp-server/stateful-server.go:61 | Itoa writes at least one character, digits only, with a leading '-' exactly for negative numbers |
| GoStrconv.AtoiOfItoa | content/src/go-tcp-server/stateful-server.go:57-61 | Atoi inverts Itoa on the 64-bit range and rejects Itoa's output outside it |
| GoStrconv.ParseDecimalOfDigits | content/src/go-tcp-server/stateful-server.go:57-58 | an unsigned non-empty run of ASCII digits parses to the number it denotes |
| GoStrconv.ParseDecimalOfNegative | content/src/go-tcp-server/stateful-server.go:57-58 | a '-' followed by a non-empty run of digits parses to the negated number |
| GoStrconv.ParseDecimalOfItoa | content/src/go-tcp-server/stateful-server.go:57-61 | the decimal syntax Atoi reads gives back every integer from its Itoa form |
| GoStrconv.ItoaInjective | content/src/go-tcp-server/stateful-server.go:61 | distinct integers have distinct decimal forms |
| GoStrconv.ItoaIsCanonical | content/src/go-tcp-server/stateful-server.go:61 | Itoa's output has no leading zero, and zero is "0", never "-0" |
| GoStrconv.ItoaOfCanonical | content/src/go-tcp-server/stateful-server.go:57-61 | every canonical decimal parses, and Itoa of its value is the same string, so Itoa's output is the unique canonical form |
| StatefulServer.Lookup | content/src/go-tcp-server/stateful-server.go:37 | `db[key]`: the stored value, or the zero value "" for an absent key; no contract of its own, characterised by GetLine and DelThenGet |
| StatefulServer.Get | content/src/go-tcp-server/stateful-server.go:33-40 | the GET arm; no contract of its own, characterised by GetLine and MissingArguments |
| StatefulServer.Set | content/src/go-tcp-server/stateful-server.go:41-50 | the SET arm; no contract of its own, characterised by SetLine, MissingArguments and LastWriteWins |
| StatefulServer.Incr | content/src/go-tcp-server/stateful-server.go:51-70 | the INCR arm; no contract of its own, characterised by IncrAbsent, IncrInteger, IncrNotInteger, MissingArguments and IncrementsFromAbsent |
| StatefulServer.Del | content/src/go-tcp-server/stateful-server.go:71-84 | the DEL arm; no contract of its own, characterised by DelLine, MissingArguments and DelThenGet |
| StatefulServer.Step | content/src/go-tcp-server/stateful-server.go:25-88 | one pass of the switch; no contract of its own, characterised by StepClosed, the per-command lemmas, UnknownLine, BlankLine, StepLocality, ErrorsChangeNothing, and Server.Execute, which is proved equal to it |
| StatefulServer.StepClosed | content/src/go-tcp-server/stateful-server.go:30-32 | a line closes the connection exactly when its token 0 is STOP or QUIT |
| StatefulServer.Run | content/src/go-tcp-server/stateful-server.go:18-89 | a connection writes at most one reply per line, and exactly one per line when no STOP/QUIT closed it |
| StatefulServer.Server.constructor | content/src/go-tcp-server/stateful-server.go:108 | the server starts with the empty map |
| StatefulServer.Server.Execute | content/src/go-tcp-server/stateful-server.go:25-88 | one pass of the switch: closing exactly when `Step` closes (then `db` is untouched), and otherwise the reply and the new `db` are those of `Step` on the old `db` |
| StatefulServer.Server.Serve | content/src/go-tcp-server/stateful-server.go:18-90 | the loop over the client's lines writes exactly `Run`'s replies and leaves `db` as `Run` does |
| ServerProperties.TokensOfLine | content/src/go-tcp-server/stateful-server.go:26-28 | any token list (space-free parts, empty ones and inner tabs allowed, whose join neither starts nor ends with white space), joined by single spaces and framed by any white space such as "\r\n", is tokenised into exactly those parts |
| ServerProperties.TokensCover | content/src/go-tcp-server/stateful-server.go:26-28 | conversely, the tokens of every line form such a token list, and the line is their join framed by white space, so the lemmas stated over framed token lists cover every line |
| ServerProperties.GetLine | content/src/go-tcp-server/stateful-server.go:33-37 | for any framed token list starting GET key, GET replies with the stored value, or "" when the key is absent, and leaves the map unchanged; extra tokens are ignored |
| ServerProperties.SetLine | content/src/go-tcp-server/stateful-server.go:41-47 | for any framed token list starting SET key value (an empty value included), SET stores token 2 under token 1, changes no other key and replies OK; extra tokens are ignored |
| ServerProperties.DelLine | content/src/go-tcp-server/stateful-server.go:71-81 | for any framed token list starting DEL key, DEL on a present key removes exactly that key and replies "1"; on an absent key it replies "0" and changes nothing |
| ServerProperties.IncrAbsent | content/src/go-tcp-server/stateful-server.go:64-66 | for any framed token list starting INCR key, INCR on an absent key stores "1" and replies "1" |
| ServerProperties.IncrInteger | content/src/go-tcp-server/stateful-server.go:56-62 | for any framed token list starting INCR key, INCR on a stored integer n stores and replies the same string, Itoa(n + 1), or Itoa of the smallest 64-bit integer when n is the largest |
| ServerProperties.IncrNotInteger | content/src/go-tcp-server/stateful-server.go:57-59 | for any framed token list starting INCR key, INCR on a value that Atoi rejects replies with the "not an integer or out of range" error and changes nothing |
| ServerProperties.MissingArguments | content/src/go-tcp-server/stateful-server.go:33-84 | for any framed token list, GET, INCR or DEL without a key, or SET without a value, gets the arity error that names the command in lower case, and changes nothing |
| ServerProperties.UnknownLine | content/src/go-tcp-server/stateful-server.go:85-86 | for any framed token list, any other token 0, lower-case commands included, gets "ERR unknown command" and changes nothing |
| ServerProperties.BlankLine | content/src/go-tcp-server/stateful-server.go:26-86 | an empty or all-blank line is an unknown command, not a close |
| ServerProperties.StopLine | content/src/go-tcp-server/stateful-server.go:31-32 | for any framed token list, STOP or QUIT, whatever tokens follow, closes the connection |
| ServerProperties.TokensOfDoubledSpace | content/src/go-tcp-server/stateful-server.go:26-27 | two adjacent spaces give an empty token: "SET a  b" tokenises to SET, a, the empty string and b |
| ServerProperties.SetOfEmptyValue | content/src/go-tcp-server/stateful-server.go:41-47 | "SET a  b" stores the empty string under "a" and replies OK, with "b" an ignored extra token |
| ServerProperties.TabIsNoSeparator | content/src/go-tcp-server/stateful-server.go:26-30 | a tab inside a line is not a separator: "GET\ta" is one token and an unknown command |
| ServerProperties.StepLocality | content/src/go-tcp-server/stateful-server.go:41-84 | a line changes at most the entry of the key in its token 1 |
| ServerProperties.ErrorsChangeNothing | content/src/go-tcp-server/stateful-server.go:33-87 | a reply that starts with "ERR" never comes with a change of the map |
| ServerProperties.RunStopsAtFirstStopLine | content/src/go-tcp-server/stateful-server.go:18-32 | no answered line is a STOP/QUIT, and a closed connection stopped at a STOP/QUIT right after its last answered line |
| ServerProperties.RunWritesEndInNewline | content/src/go-tcp-server/stateful-server.go:89 | every write the loop makes is a reply followed by "\n" |
| ServerProperties.RunAppend | content/src/go-tcp-server/stateful-server.go:18-32 | serving `a` then `b` is serving `a + b`, and lines after a STOP/QUIT are never read |
| ServerProperties.RunCons | content/src/go-tcp-server/stateful-server.go:18-89 | an answered first line writes its reply and a newline, and the rest of the connection continues from the new map |
| ServerProperties.RunSingle | content/src/go-tcp-server/stateful-server.go:18-89 | a connection of one answered line writes that reply and a newline and ends with the new map, not closed |
| ServerProperties.StepOfIncr | content/src/go-tcp-server/stateful-server.go:51 | a line whose tokens are INCR and a key runs the INCR arm |
| ServerProperties.IncrCounts | content/src/go-tcp-server/stateful-server.go:56-66 | the n-th INCR of an initially absent key finds n - 1 stored and stores and replies n |
| ServerProperties.IncrementsFromAbsent | content/src/go-tcp-server/stateful-server.go:51-67 | n INCRs of an absent key reply "1".."n" and leave "n" stored, with no other key touched |
| ServerProperties.LastWriteWins | content/src/go-tcp-server/stateful-server.go:37-46 | after SET k v1 and SET k v2, GET k replies v2 |
| ServerProperties.DelThenGet | content/src/go-tcp-server/stateful-server.go:37-77 | after DEL of a present key, GET replies the empty string |
| ServerProperties.SetThenIncr | content/src/go-tcp-server/stateful-server.go:41-62 | SET k 1 then INCR k reply OK and 2 and leave "2" stored under k |
| ServerProperties.SetIncrDelGet | content/src/go-tcp-server/stateful-server.go:37-78 | SET k 1, INCR k, DEL k, GET k reply OK, 2, 1 and the empty string and leave k removed |
| ServerProperties.ScenarioTokens | content/src/go-tcp-server/stateful-server.go:26-28 | the lines "SET a 1\n", "INCR a\n", "DEL a\n", "GET a\n" as a client sends them, trailing newline included, tokenise into their words |
| ServerProperties.Scenario | content/src/go-tcp-server/stateful-server.go:18-89 | that four-line session writes "OK\n", "2\n", "1\n", "\n" and leaves the map without "a" |
| ServerProperties.IncrOfTextThenGet | content/src/go-tcp-server/stateful-server.go:37-59 | INCR of "abc" is refused, and a following GET still sees "abc" |

## Left out

- Socket handling is not modelled: `main`, the port argument, `net.Listen`, `Accept` and the usage message (stateful-server.go:93-117). This is I/O.
- Reading the line with `bufio.NewReader(client).ReadString('\n')` and its error handling are not modelled (stateful-server.go:19-23). The input is a sequence of already-received lines. The end of that sequence stands for the read error that ends the loop. A fresh reader per iteration could drop buffered bytes; that effect is not modelled either.
- `client.Write` is modelled as appending `reply + "\n"` to the list of writes. Write errors, which the code ignores, are not modelled.
- Concurrency is not modelled. `main` starts one goroutine per connection, and they all share one map without a lock (stateful-server.go:116), which is a data race. The model is a single connection running on its own. No serialising coordinator exists in the code, so none is modelled.
- Strings are sequences of Unicode scalar values. Invalid UTF-8 bytes, which Go's `TrimSpace` and `Split` handle byte-wise, are not modelled.
- The unused constants `MIN` and `MAX` (stateful-server.go:12-13) are not modelled.
- `content/server_0.go` and `content/src/go-tcp-server/simple-server.go` are not part of this model. They only accept connections and log or echo lines.
- GoStrconv.Inc64IsWrappedSuccessor: Go's `int` is taken to be 64 bits wide. On a 32-bit platform both the Atoi range and the wrap-around would be 32-bit.
- GoStrconv.AtoiAccepts: only the accept/reject decision and the value are modelled. The kind of error Go reports (syntax or range) and its message are not, because the server replaces every error with the same reply.
