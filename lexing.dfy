/** A reference model of the Lox scanner as pure functions: what one dispatch
    step does to the cursor, and what a whole scan produces. The `Scanner`
    class in module Scanning is proved to compute exactly this. */
module Lexing {
  import opened Tokens
  import opened Session

  /** The message reported for a character that starts no token. */
  const UnexpectedCharacter: string := "Unexpected character."

  /** The cursor a scan step starts from: the next unconsumed index and the line. */
  datatype Cursor = Cursor(current: nat, line: nat)

  /** What one dispatch step does: the cursor after it, the token it emits
      (if any) and the error it reports (if any). */
  datatype Effect = Effect(next: Cursor, token: Option<Token>, report: Option<Diagnostic>)

  datatype Option<T> = None | Some(value: T)

  function ToSeq<T>(o: Option<T>): (s: seq<T>)
    ensures o.Some? ==> s == [o.value]
    ensures o.None? ==> s == []
  {
    if o.Some? then [o.value] else []
  }

  /** The result of scanning from a cursor to the end of the input. */
  datatype Run = Run(tokens: seq<Token>, reports: seq<Diagnostic>, final: Cursor)

  /** Characters that are a token on their own. */
  predicate IsPunctuation(c: char)
  {
    c == '(' || c == ')' || c == '{' || c == '}' || c == ',' ||
    c == '.' || c == '-' || c == '+' || c == ';' || c == '*'
  }

  /** Characters that start a one- or two-character operator. */
  predicate IsOperatorStart(c: char)
  {
    c == '!' || c == '=' || c == '<' || c == '>'
  }

  /** Whitespace other than a newline. */
  predicate IsBlank(c: char)
  {
    c == ' ' || c == '\r' || c == '\t'
  }

  /** Characters that the dispatch handles without reporting an error. */
  predicate Recognized(c: char)
  {
    IsPunctuation(c) || IsOperatorStart(c) || c == '/' || IsBlank(c) || c == '\n'
  }

  /** The kind of a single-character punctuation token. */
  function PunctuationKind(c: char): TokenType
    requires IsPunctuation(c)
  {
    match c
    case '(' => LeftParen
    case ')' => RightParen
    case '{' => LeftBrace
    case '}' => RightBrace
    case ',' => Comma
    case '.' => Dot
    case '-' => Minus
    case '+' => Plus
    case ';' => Semicolon
    case '*' => Star
  }

  /** The kind emitted for an operator character, with or without the `=`
      that follows it. A lone `<` yields `Equal`, as the scanner is written. */
  function OperatorKind(c: char, withEqual: bool): TokenType
    requires IsOperatorStart(c)
  {
    match c
    case '!' => if withEqual then BangEqual else Bang
    case '=' => if withEqual then EqualEqual else Equal
    case '<' => if withEqual then LessEqual else Equal
    case '>' => if withEqual then GreaterEqual else Greater
  }

  /** Emits the token made of `source[at.current..end]` on the current line. */
  function Emit(source: string, at: Cursor, end: nat, kind: TokenType): (e: Effect)
    requires at.current < end <= |source|
    ensures e.next == Cursor(end, at.line) && e.report.None? && e.token.Some?
    ensures e.token.value.tokenType == kind && e.token.value.line == at.line
    ensures |e.token.value.lexeme| == end - at.current
    ensures forall i :: 0 <= i < end - at.current ==> e.token.value.lexeme[i] == source[at.current + i]
  {
    Effect(Cursor(end, at.line), Some(Token(kind, source[at.current..end], Literal.Nil, at.line)), None)
  }

  /** One dispatch step on the character at `at.current`, with `start` equal
      to `at.current`. */
  function ScanTokenAt(source: string, at: Cursor): (e: Effect)
    requires at.current < |source|
    // the cursor advances by one or two characters and stays inside the input
    ensures at.current < e.next.current <= at.current + 2 && e.next.current <= |source|
    // the line counter never goes back
    ensures at.line <= e.next.line
  {
    var next := at.current + 1;
    var equalFollows := next < |source| && source[next] == '=';
    match source[at.current]
    case '(' => Emit(source, at, next, LeftParen)
    case ')' => Emit(source, at, next, RightParen)
    case '{' => Emit(source, at, next, LeftBrace)
    case '}' => Emit(source, at, next, RightBrace)
    case ',' => Emit(source, at, next, Comma)
    case '.' => Emit(source, at, next, Dot)
    case '-' => Emit(source, at, next, Minus)
    case '+' => Emit(source, at, next, Plus)
    case ';' => Emit(source, at, next, Semicolon)
    case '*' => Emit(source, at, next, Star)
    case '!' => if equalFollows then Emit(source, at, next + 1, BangEqual) else Emit(source, at, next, Bang)
    case '=' => if equalFollows then Emit(source, at, next + 1, EqualEqual) else Emit(source, at, next, Equal)
    case '<' => if equalFollows then Emit(source, at, next + 1, LessEqual) else Emit(source, at, next, Equal)
    case '>' => if equalFollows then Emit(source, at, next + 1, GreaterEqual) else Emit(source, at, next, Greater)
    case '/' =>
      if next < |source| && source[next] != '\n' then Effect(Cursor(next + 1, at.line), None, None)
      else Emit(source, at, next, Slash)
    case ' ' | '\r' | '\t' => Effect(Cursor(next, at.line), None, None)
    case '\n' => Effect(Cursor(next, at.line + 1), None, None)
    case _ => Effect(Cursor(next, at.line), None, Some(Diagnostic(at.line, "", UnexpectedCharacter)))
  }

  /** What one dispatch step guarantees whatever the character: the line
      moves only on a newline, a newline is never swallowed, an emitted token
      is the consumed text on the current line, and exactly the characters no
      arm handles are reported, after being skipped alone. */
  lemma StepFacts(source: string, at: Cursor)
    requires at.current < |source|
    // the line counter moves exactly on a dispatched newline
    ensures var e := ScanTokenAt(source, at);
            e.next.line == at.line + (if source[at.current] == '\n' then 1 else 0)
    // a second consumed character is never a newline
    ensures var e := ScanTokenAt(source, at);
            e.next.current == at.current + 2 ==> source[at.current + 1] != '\n'
    // an emitted token is the consumed text, on the current line, and never Eof
    ensures var e := ScanTokenAt(source, at);
            e.token.Some? ==>
              e.token.value.lexeme == source[at.current..e.next.current] &&
              e.token.value.literal == Literal.Nil &&
              e.token.value.line == at.line &&
              e.token.value.tokenType != Eof
    // an error is reported exactly for a character no arm handles; it skips that one character
    ensures var e := ScanTokenAt(source, at);
            e.report.Some? <==> !Recognized(source[at.current])
    ensures var e := ScanTokenAt(source, at);
            e.report.Some? ==>
              e.report.value == Diagnostic(at.line, "", UnexpectedCharacter) &&
              e.token.None? && e.next.current == at.current + 1
  {
  }

  /** How each dispatch arm chooses: maximal munch for operators, the
      slash rule, punctuation and whitespace. */
  lemma DispatchArms(source: string, at: Cursor)
    requires at.current < |source|
    // maximal munch: an operator takes the following '=' whenever there is one
    ensures var e := ScanTokenAt(source, at);
            IsOperatorStart(source[at.current]) ==>
              e.token.Some? &&
              (e.next.current == at.current + 2 <==>
                 at.current + 1 < |source| && source[at.current + 1] == '=') &&
              e.token.value.tokenType == OperatorKind(source[at.current], e.next.current == at.current + 2)
    // a slash is a token of its own unless a character other than a newline follows,
    // in which case that character is consumed silently
    ensures var e := ScanTokenAt(source, at);
            source[at.current] == '/' ==>
              e.report.None? &&
              (e.token.None? <==> at.current + 1 < |source| && source[at.current + 1] != '\n') &&
              (e.token.None? ==> e.next.current == at.current + 2) &&
              (e.token.Some? ==> e.token.value.tokenType == Slash && e.next.current == at.current + 1)
    // punctuation is always a one-character token of its own kind
    ensures var e := ScanTokenAt(source, at);
            IsPunctuation(source[at.current]) ==>
              e.token.Some? && e.token.value.tokenType == PunctuationKind(source[at.current]) &&
              e.next.current == at.current + 1
    // whitespace and newlines are consumed alone and emit nothing
    ensures var e := ScanTokenAt(source, at);
            IsBlank(source[at.current]) || source[at.current] == '\n' ==>
              e.token.None? && e.next.current == at.current + 1
  {
  }

  /** Appending a step's output to an accumulator, then the rest of the scan. */
  lemma AppendStep<T>(acc: seq<T>, o: Option<T>, rest: seq<T>)
    ensures acc + (ToSeq(o) + rest) == (acc + ToSeq(o)) + rest
  {
  }

  /** Repeats the dispatch step from `at` until the input is exhausted. */
  function ScanFrom(source: string, at: Cursor): (r: Run)
    ensures r.final.current == if at.current < |source| then |source| else at.current
    ensures at.line <= r.final.line
    decreases |source| - at.current
  {
    if at.current >= |source| then Run([], [], at)
    else
      var e := ScanTokenAt(source, at);
      var rest := ScanFrom(source, e.next);
      Run(ToSeq(e.token) + rest.tokens, ToSeq(e.report) + rest.reports, rest.final)
  }

  /** The scan loop stops exactly when nothing is left to scan: at or past
      the end of the input the scan emits nothing, reports nothing and leaves
      the cursor where it is, and anywhere before the end it moves the cursor. */
  lemma AtEndScansNothing(source: string, at: Cursor)
    ensures at.current >= |source| <==> ScanFrom(source, at) == Run([], [], at)
  {
  }

  /** One more step of the scan: what a step at `at` adds in front of the
      scan from the cursor it leaves. */
  lemma ScanFromStep(source: string, at: Cursor)
    requires at.current < |source|
    ensures var e := ScanTokenAt(source, at);
            var r := ScanFrom(source, at);
            var rest := ScanFrom(source, e.next);
            r.tokens == ToSeq(e.token) + rest.tokens &&
            r.reports == ToSeq(e.report) + rest.reports &&
            r.final == rest.final
  {
  }

  /** No token of a scan is Eof, and every token and every report carries a
      line between the starting and the final line counter; every report is
      an unexpected-character error with an empty location. */
  lemma {:induction false} ScanFromWithinLines(source: string, at: Cursor)
    ensures var r := ScanFrom(source, at);
            (forall t :: t in r.tokens ==> t.tokenType != Eof && at.line <= t.line <= r.final.line) &&
            (forall d :: d in r.reports ==>
               d.location == "" && d.message == UnexpectedCharacter && at.line <= d.line <= r.final.line)
    decreases |source| - at.current
  {
    if at.current < |source| {
      var e := ScanTokenAt(source, at);
      StepFacts(source, at);
      ScanFromWithinLines(source, e.next);
    }
  }

  /** The token list a fresh scanner produces for `source`. */
  function Scan(source: string): (r: seq<Token>)
    ensures |r| >= 1 && r[|r| - 1].tokenType == Eof && r[|r| - 1].lexeme == ""
    ensures r[|r| - 1].line >= 1
  {
    var run := ScanFrom(source, Cursor(0, 1));
    run.tokens + [EofToken(run.final.line)]
  }

  /** The reports a fresh scanner makes for `source`: each is an
      unexpected-character error with an empty location, on a line from 1 on. */
  function ScanReports(source: string): (r: seq<Diagnostic>)
    ensures forall d :: d in r ==> d.location == "" && d.message == UnexpectedCharacter && 1 <= d.line
  {
    ScanFromWithinLines(source, Cursor(0, 1));
    ScanFrom(source, Cursor(0, 1)).reports
  }

  /** The number of newline characters in `s`. */
  function Newlines(s: string): (n: nat)
    ensures n <= |s|
  {
    if s == [] then 0 else (if s[0] == '\n' then 1 else 0) + Newlines(s[1..])
  }

  /** The final line counter is the starting line plus the newlines in the rest
      of the input: every newline is consumed by the newline arm. */
  lemma {:induction false} FinalLineCountsNewlines(source: string, at: Cursor)
    requires at.current <= |source|
    ensures ScanFrom(source, at).final.line == at.line + Newlines(source[at.current..])
    decreases |source| - at.current
  {
    if at.current < |source| {
      var e := ScanTokenAt(source, at);
      StepFacts(source, at);
      FinalLineCountsNewlines(source, e.next);
      assert source[at.current..][1..] == source[at.current + 1..];
      if e.next.current == at.current + 2 {
        assert source[at.current + 1..][1..] == source[at.current + 2..];
      }
    }
  }

  /** The scan of any input ends in exactly one Eof token, with empty lexeme,
      literal Nil, and the line 1 + the number of newlines in the input. */
  lemma ScanEndsWithOneEof(source: string)
    ensures |Scan(source)| >= 1
    ensures Scan(source)[|Scan(source)| - 1] == Token(Eof, "", Literal.Nil, 1 + Newlines(source))
    ensures forall i :: 0 <= i < |Scan(source)| - 1 ==> Scan(source)[i].tokenType != Eof
  {
    FinalLineCountsNewlines(source, Cursor(0, 1));
    ScanFromWithinLines(source, Cursor(0, 1));
    assert source[0..] == source;
    var toks := ScanFrom(source, Cursor(0, 1)).tokens;
    forall i | 0 <= i < |Scan(source)| - 1
      ensures Scan(source)[i].tokenType != Eof
    {
      assert Scan(source)[i] == toks[i];
      assert toks[i] in toks;
    }
  }

  /** The lines of `toks` never decrease. */
  predicate LinesOrdered(toks: seq<Token>)
  {
    forall i, j :: 0 <= i < j < |toks| ==> toks[i].line <= toks[j].line
  }

  lemma PrependKeepsLinesOrdered(t: Token, rest: seq<Token>)
    requires LinesOrdered(rest)
    requires forall u :: u in rest ==> t.line <= u.line
    ensures LinesOrdered([t] + rest)
  {
    var toks := [t] + rest;
    forall i, j | 0 <= i < j < |toks|
      ensures toks[i].line <= toks[j].line
    {
      assert toks[j] == rest[j - 1];
      if i > 0 {
        assert toks[i] == rest[i - 1];
      }
    }
  }

  /** Tokens are emitted in order of their lines. */
  lemma {:induction false} TokenLinesNondecreasing(source: string, at: Cursor)
    ensures LinesOrdered(ScanFrom(source, at).tokens)
    decreases |source| - at.current
  {
    if at.current < |source| {
      var e := ScanTokenAt(source, at);
      TokenLinesNondecreasing(source, e.next);
      ScanFromWithinLines(source, e.next);
      if e.token.Some? {
        PrependKeepsLinesOrdered(e.token.value, ScanFrom(source, e.next).tokens);
      }
    }
  }

  /** Input made only of spaces, tabs, carriage returns and newlines yields no
      token and no report. */
  lemma {:induction false} BlankInputEmitsNothing(source: string, at: Cursor)
    requires forall k :: at.current <= k < |source| ==> IsBlank(source[k]) || source[k] == '\n'
    ensures ScanFrom(source, at).tokens == []
    ensures ScanFrom(source, at).reports == []
    decreases |source| - at.current
  {
    if at.current < |source| {
      DispatchArms(source, at);
      BlankInputEmitsNothing(source, ScanTokenAt(source, at).next);
    }
  }

  /** Hence a blank source scans to the Eof token alone. */
  lemma BlankSourceScansToEof(source: string)
    requires forall k :: 0 <= k < |source| ==> IsBlank(source[k]) || source[k] == '\n'
    ensures Scan(source) == [EofToken(1 + Newlines(source))]
    ensures ScanReports(source) == []
  {
    var run := ScanFrom(source, Cursor(0, 1));
    BlankInputEmitsNothing(source, Cursor(0, 1));
    FinalLineCountsNewlines(source, Cursor(0, 1));
    assert source[0..] == source;
    assert run.final.line == 1 + Newlines(source);
    assert run.tokens == [];
  }

  /** Without unrecognised characters nothing is reported. */
  lemma {:induction false} RecognizedInputReportsNothing(source: string, at: Cursor)
    requires forall k :: at.current <= k < |source| ==> Recognized(source[k])
    ensures ScanFrom(source, at).reports == []
    decreases |source| - at.current
  {
    if at.current < |source| {
      StepFacts(source, at);
      RecognizedInputReportsNothing(source, ScanTokenAt(source, at).next);
    }
  }

  /** Error recovery: a run of unrecognised characters is reported once per
      character, on the current line, and emits no token; scanning then goes
      on from the end of the run exactly as if it had started there. */
  lemma {:induction false} StrayCharactersReportedEach(source: string, at: Cursor, end: nat)
    requires at.current <= end <= |source|
    requires forall k :: at.current <= k < end ==> !Recognized(source[k])
    ensures var r, rest := ScanFrom(source, at), ScanFrom(source, Cursor(end, at.line));
            r.tokens == rest.tokens && r.final == rest.final &&
            r.reports == seq(end - at.current, _ => Diagnostic(at.line, "", UnexpectedCharacter)) + rest.reports
    decreases end - at.current
  {
    if at.current < end {
      var e := ScanTokenAt(source, at);
      StepFacts(source, at);
      StrayCharactersReportedEach(source, e.next, end);
      var d := Diagnostic(at.line, "", UnexpectedCharacter);
      assert e.next == Cursor(at.current + 1, at.line);
      assert seq(end - at.current, _ => d) == [d] + seq(end - e.next.current, _ => d);
    }
  }

  /** The text of a token list: its lexemes, concatenated in order. */
  function Lexemes(toks: seq<Token>): (s: string)
    ensures toks == [] ==> s == []
  {
    if toks == [] then [] else toks[0].lexeme + Lexemes(toks[1..])
  }

  /** The characters of `s` that end up in some token, defined character by
      character: blanks, newlines and unhandled characters are dropped, a `/`
      is dropped together with a following character other than a newline,
      and every other character is kept. */
  function Kept(s: string): (r: string)
    ensures |r| <= |s|
  {
    if s == [] then []
    else if s[0] == '/' && |s| > 1 && s[1] != '\n' then Kept(s[2..])
    else if IsBlank(s[0]) || s[0] == '\n' || !Recognized(s[0]) then Kept(s[1..])
    else [s[0]] + Kept(s[1..])
  }

  /** One step keeps exactly the text of the token it emits. */
  lemma StepKeptText(source: string, at: Cursor)
    requires at.current < |source|
    ensures var e := ScanTokenAt(source, at);
            Lexemes(ToSeq(e.token)) + Kept(source[e.next.current..]) == Kept(source[at.current..])
  {
    var e := ScanTokenAt(source, at);
    StepFacts(source, at);
    DispatchArms(source, at);
    var s := source[at.current..];
    assert s[1..] == source[at.current + 1..];
    if e.next.current == at.current + 2 {
      assert s[1..][1..] == s[2..] == source[at.current + 2..];
    }
    if e.token.Some? {
      var t := e.token.value;
      assert ToSeq(e.token)[1..] == [];
      assert Lexemes(ToSeq(e.token)) == t.lexeme;
      if e.next.current == at.current + 2 {
        // an operator followed by '=': both characters are kept
        assert t.lexeme == [s[0]] + [s[1]];
        assert Kept(s) == [s[0]] + ([s[1]] + Kept(s[2..]));
      } else {
        assert t.lexeme == [s[0]];
      }
    } else if e.next.current == at.current + 2 {
      // a slash swallowing the next character: the pair is dropped
      assert s[0] == '/' && |s| > 1 && s[1] != '\n';
    }
  }

  /** The text of a token list splits at any concatenation. */
  lemma {:induction false} LexemesAppend(a: seq<Token>, b: seq<Token>)
    ensures Lexemes(a + b) == Lexemes(a) + Lexemes(b)
    decreases |a|
  {
    if a != [] {
      assert (a + b)[1..] == a[1..] + b;
      LexemesAppend(a[1..], b);
    } else {
      assert a + b == b;
    }
  }

  /** Round trip: the lexemes of a scan, in order, are exactly the kept
      characters of the input it consumed. */
  lemma {:induction false} LexemesAreKeptText(source: string, at: Cursor)
    requires at.current <= |source|
    ensures Lexemes(ScanFrom(source, at).tokens) == Kept(source[at.current..])
    decreases |source| - at.current
  {
    if at.current < |source| {
      var e := ScanTokenAt(source, at);
      LexemesAreKeptText(source, e.next);
      StepKeptText(source, at);
      LexemesAppend(ToSeq(e.token), ScanFrom(source, e.next).tokens);
    }
  }

  /** For a whole source: the non-Eof lexemes of `Scan` spell out `Kept(source)`. */
  lemma ScanLexemesAreKeptText(source: string)
    ensures Lexemes(Scan(source)[..|Scan(source)| - 1]) == Kept(source)
  {
    LexemesAreKeptText(source, Cursor(0, 1));
    assert source[0..] == source;
    assert Scan(source)[..|Scan(source)| - 1] == ScanFrom(source, Cursor(0, 1)).tokens;
  }

  /** A source that one dispatch step consumes whole, emitting a token,
      scans to that token followed by Eof on line 1. */
  lemma SingleTokenScan(s: string)
    requires |s| > 0
    requires ScanTokenAt(s, Cursor(0, 1)).next.current == |s|
    requires ScanTokenAt(s, Cursor(0, 1)).token.Some?
    ensures Scan(s) == [ScanTokenAt(s, Cursor(0, 1)).token.value, EofToken(1)]
  {
    var e := ScanTokenAt(s, Cursor(0, 1));
    StepFacts(s, Cursor(0, 1));
    DispatchArms(s, Cursor(0, 1));
    assert ScanFrom(s, e.next) == Run([], [], e.next);
    assert ScanFrom(s, Cursor(0, 1)).tokens == [e.token.value];
    assert e.next.line == 1;
  }

  /** Re-scanning the lexeme of any emitted token on its own gives back one
      token of the same kind, then Eof. */
  lemma EmittedTokenRescans(source: string, at: Cursor)
    requires at.current < |source|
    requires ScanTokenAt(source, at).token.Some?
    ensures var t := ScanTokenAt(source, at).token.value;
            Scan(t.lexeme) == [Token(t.tokenType, t.lexeme, Literal.Nil, 1), EofToken(1)]
  {
    var e := ScanTokenAt(source, at);
    StepFacts(source, at);
    DispatchArms(source, at);
    var t := e.token.value;
    var c := source[at.current];
    var lex := t.lexeme;
    assert |lex| == e.next.current - at.current;
    assert lex[0] == c;
    assert |lex| == 2 ==> lex[1] == source[at.current + 1];
    var e' := ScanTokenAt(lex, Cursor(0, 1));
    StepFacts(lex, Cursor(0, 1));
    DispatchArms(lex, Cursor(0, 1));
    assert e'.next.current == |lex|;
    assert lex[0..|lex|] == lex;
    assert e'.token == Some(Token(t.tokenType, lex, Literal.Nil, 1));
    SingleTokenScan(lex);
  }

  /** The same for every token of a scan. */
  lemma {:induction false} ScannedTokensRescan(source: string, at: Cursor)
    ensures forall t :: t in ScanFrom(source, at).tokens ==>
              Scan(t.lexeme) == [Token(t.tokenType, t.lexeme, Literal.Nil, 1), EofToken(1)]
    decreases |source| - at.current
  {
    if at.current < |source| {
      var e := ScanTokenAt(source, at);
      ScannedTokensRescan(source, e.next);
      if e.token.Some? {
        EmittedTokenRescans(source, at);
      }
    }
  }

  /** Maximal munch: an operator followed by `=` on its own scans to the one
      two-character token (`BangEqual`, `EqualEqual`, `LessEqual`,
      `GreaterEqual`), then Eof. */
  lemma OperatorWithEqualScansAsOne(c: char)
    requires IsOperatorStart(c)
    ensures Scan([c, '=']) == [Token(OperatorKind(c, true), [c, '='], Literal.Nil, 1), EofToken(1)]
  {
    var s := [c, '='];
    DispatchArms(s, Cursor(0, 1));
    assert s[0..2] == s;
    SingleTokenScan(s);
  }

  /** An operator alone is a one-character token (`Bang`, `Equal`, `Greater`,
      and `Equal` again for `<`, as the scanner is written), then Eof. */
  lemma OperatorAloneScansAsOne(c: char)
    requires IsOperatorStart(c)
    ensures Scan([c]) == [Token(OperatorKind(c, false), [c], Literal.Nil, 1), EofToken(1)]
  {
    var s := [c];
    DispatchArms(s, Cursor(0, 1));
    assert s[0..1] == s;
    SingleTokenScan(s);
  }
}
