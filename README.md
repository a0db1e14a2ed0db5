# Lox scanner model

A Dafny model of the hand-written lexer of a Rust Lox interpreter front end:
the `Scanner` object, with its cursor (`start`, `current`, `line`) over the
source text, its growing token list, and the `Lox` session whose `had_error`
flag it raises on a lexical error.

The model has four modules:

- `Tokens` (tokens.dfy) holds the token kinds, the literal payload (`Nil` only)
  and the `Token` record.
- `Session` (session.dfy) holds the `Lox` class: the `hadError` flag, plus a
  ghost log of the reports, which stands in for the diagnostic output.
- `Lexing` (lexing.dfy) is a reference model written as pure functions:
  - `ScanTokenAt` is one dispatch step from a cursor;
  - `ScanFrom` repeats the step to the end of the input;
  - `Scan` adds the trailing Eof token.

  It also holds the lemmas about a whole scan, among them a round trip: the
  lexemes, concatenated in order, give back the input minus exactly the
  characters the scanner drops.
- `Scanning` (scanner.dfy) holds the imperative `Scanner` class. `scan_token`
  and `scan_tokens` are methods over mutable fields, and each method is proved
  to compute exactly what `Lexing` says. `Tokenize` runs a fresh scanner over
  a whole source.

The model follows the code as written, including two behaviours that a
textbook Lox scanner does not have:
- `<` not followed by `=` emits an `Equal` token, not `Less`.
- `/` followed by any character other than a newline consumes that one
  character silently and emits nothing. It does not skip a line comment, and
  a `/` followed by a stray character such as `@` swallows it without a
  report. Before a newline or at the end of input, `/` is a `Slash` token.

The code has no string, number, identifier or keyword scanning, so the model
has none either.

## Model

| member | source | states |
|---|---|---|
| `Session.Lox.constructor` | src/lox.rs:11-13 | a new session has `had_error` false and an empty report log |
| `Session.Lox.Report` | src/lox.rs:19-22 | `had_error` becomes true (it is never lowered) and `(line, location, message)` is appended to the log; the flag is true exactly when the log is non-empty |
| `Session.Lox.Error` | src/lox.rs:15-17 | the same effect as `Report` with an empty location: the flag is raised and `(line, "", message)` is appended |
| `Scanning.Scanner.constructor` | src/scanner.rs:15-24 | a fresh scanner has `start == 0`, `current == 0`, `line == 1`, an empty token list, and a fresh session with `had_error` false and no reports |
| `Scanning.Scanner.AddToken` | src/scanner.rs:30-34 | appends exactly one token whose lexeme is `source[start..current]`, on the current line, with the given kind and literal |
| `Scanning.Scanner.MatchChar` | src/scanner.rs:93-102 | true exactly when the cursor is not at the end and the next character is the expected one; then `current` advances by exactly one, otherwise it is unchanged |
| `Scanning.Scanner.IsAtEnd` | src/scanner.rs:26-28 | the loop's exit test on `current >= len(source)`; when false, the character at `current` exists (what the `unwrap` at line 37 relies on) |
| `Lexing.AtEndScansNothing` | src/scanner.rs:26-28 | the cursor is at or past the end exactly when the rest of the scan emits nothing, reports nothing and leaves the cursor in place |
| `Scanning.Scanner.Peek` | src/scanner.rs:105-110 | `'\0'` at the end of input, otherwise the character at `current`; changes no state |
| `Scanning.Scanner.ScanToken` | src/scanner.rs:36-90 | the new cursor, token list and report log are exactly one step of the reference model (`Lexing.ScanTokenAt`); so it advances by 1 or 2, appends at most one token, makes at most one report, and keeps `start <= current <= len(source)` |
| `Scanning.Scanner.ScanTokens` | src/scanner.rs:112-123 | the loop terminates with `current` at the end. It appends the reference scan's tokens, then Eof on the final line, and appends the reference scan's reports. `had_error` ends true exactly when it was already true or something was reported |
| `Scanning.Tokenize` | src/scanner.rs:15-123 | a composition the model adds: it builds a scanner as `Scanner::new` does, runs `scan_tokens` and reads back the token list and session flag (private, with no accessor, in the Rust code). It yields exactly `Lexing.Scan(source)`, and the flag is raised exactly when `Lexing.ScanReports(source)` is non-empty |
| `Lexing.Emit` | src/scanner.rs:30-34 | the reference step's `add_token`: a token of the given kind on the current line whose lexeme is exactly the characters from the cursor up to `end`, with the cursor moved to `end` and no report |
| `Lexing.ScanTokenAt` | src/scanner.rs:36-90 | one dispatch step advances the cursor by one or two characters, stays inside the input, and never lowers the line counter |
| `Lexing.StepFacts` | src/scanner.rs:36-90 | one step adds one to the line exactly on a newline, never consumes a newline as its second character, and emits only `source[start..current]` tokens with literal `Nil` on the current line, never Eof. It reports "Unexpected character." exactly for a character that no arm handles, and then skips that one character |
| `Lexing.DispatchArms` | src/scanner.rs:39-86 | operators take a following `=` exactly when there is one (maximal munch), with the kind from the `!`/`=`/`<`/`>` table. `/` emits `Slash` unless a non-newline character follows, which it swallows. Punctuation emits its own one-character kind. Blanks and newlines emit nothing and consume one character |
| `Lexing.ScanFrom` | src/scanner.rs:112-116 | the scan loop ends with `current` at the end of the input (or where it started, if already past it), and the line counter never decreases |
| `Lexing.Scan` | src/scanner.rs:112-123 | what a fresh scanner's `scan_tokens` leaves in `tokens`: the loop's tokens followed by the Eof token, which has an empty lexeme and a line from 1 on |
| `Lexing.ScanReports` | src/scanner.rs:112-123 | what a fresh scanner's `scan_tokens` reports: every report is "Unexpected character." with an empty location, on a line from 1 on |
| `Lexing.ScanFromWithinLines` | src/scanner.rs:112-116 | no token of the loop is Eof; every token and report carries a line between the starting and the final line; every report is an unexpected-character error with an empty location |
| `Lexing.FinalLineCountsNewlines` | src/scanner.rs:86 | the final line counter is the starting line plus the number of newlines in the unconsumed input, since each newline is consumed by the newline arm |
| `Lexing.ScanEndsWithOneEof` | src/scanner.rs:117-122 | the token list is non-empty. Its last token is Eof with empty lexeme, literal `Nil` and line `1 + newlines(source)`, and no earlier token is Eof |
| `Lexing.TokenLinesNondecreasing` | src/scanner.rs:30-34 | tokens are emitted in non-decreasing line order |
| `Lexing.BlankInputEmitsNothing` | src/scanner.rs:85-86 | input made only of spaces, tabs, carriage returns and newlines emits no token and no report |
| `Lexing.BlankSourceScansToEof` | src/scanner.rs:85-86 | such a source scans to the single Eof token on line `1 + newlines(source)`, with no report |
| `Lexing.RecognizedInputReportsNothing` | src/scanner.rs:88 | when every character is one that some arm handles, nothing is reported |
| `Lexing.StrayCharactersReportedEach` | src/scanner.rs:88 | a run of unhandled characters, anywhere in the input, emits no token and gets one "Unexpected character." report per character on the current line. After the run, tokens, reports and final cursor are exactly those of a scan started at the end of the run: recovery skips one character at a time and scanning continues unaffected |
| `Lexing.StepKeptText` | src/scanner.rs:39-88 | the text of the token one step emits, followed by the kept text of the remaining input, is the kept text of the input from the step's start (`Kept` is an independent character-level filter) |
| `Lexing.LexemesAreKeptText` | src/scanner.rs:112-116 | round trip: the loop's lexemes, concatenated in order, are exactly `Kept` of the unconsumed input. `Kept` drops blanks, newlines and unhandled characters, drops each `/` together with a following non-newline character, and keeps every other character |
| `Lexing.ScanLexemesAreKeptText` | src/scanner.rs:112-123 | for a whole source, the lexemes of every token before Eof spell out `Kept(source)` |
| `Lexing.EmittedTokenRescans` | src/scanner.rs:39-84 | scanning the lexeme of an emitted token on its own gives back one token of the same kind, then Eof |
| `Lexing.ScannedTokensRescan` | src/scanner.rs:112-116 | the same holds for every token of a scan |
| `Lexing.OperatorWithEqualScansAsOne` | src/scanner.rs:50-77 | `!=`, `==`, `<=` and `>=` each scan to exactly one two-character token (`BangEqual`, `EqualEqual`, `LessEqual`, `GreaterEqual`), followed by Eof |
| `Lexing.OperatorAloneScansAsOne` | src/scanner.rs:50-77 | `!`, `=` and `>` alone scan to `Bang`, `Equal` and `Greater`, and `<` alone to `Equal` as written; each is followed by Eof |

## Left out

- src/main.rs: argument-count dispatch and the exit status 64 are process plumbing.
- `Lox::run_file`, `Lox::run_prompt` and `Lox::run_source` (src/lox.rs:24-54) are file and stdin I/O, a REPL loop, printing and `process::exit(65)`. The REPL's reset of `had_error` (src/lox.rs:45) belongs to them and is not modelled. That is why `Lox.Valid` can tie the flag to a non-empty report log.
- The text printed by `report` (src/lox.rs:20) is not modelled. Each report is an abstract `(line, location, message)` entry in a ghost log.
- Byte versus character indexing is not modelled. `source.len()` counts bytes while `chars().nth` counts characters. The source is a `seq<char>` of ASCII text, so the two agree, and the model does not reproduce UTF-8 behaviour.
- src/token.rs is not part of this model. `TokenType` lists the Lox token kinds, and `Literal` has only `Nil`, the one payload the scanner attaches. Number literals would be floating point.
- String, number, identifier and keyword scanning, and line comments, are not in the modelled code.
- `Scanning.Scanner.ScanToken` requires `start == current`. Its only caller, `scan_tokens`, sets `start` that way just before the call. The step model takes the lexeme's start from the cursor.
- The session is a `Lox` object referenced by the scanner, while the Rust scanner owns it by value. Nothing else holds the object, so there is no aliasing to model.
- `Scanner::new` (src/scanner.rs:22) gives each scanner its own fresh `Lox` session, and `run_source` (src/lox.rs:52-54) only echoes the text without scanning it. So no path in this code raises the driver's `had_error`. The model keeps the scanner's private session, and `Scanning.Tokenize` returns its flag.
