/** The scanner object: a cursor (`start`, `current`, `line`) over an
    immutable source text, the token list it grows in place, and the session
    it reports errors to. `ScanToken` and `ScanTokens` are proved to do what
    the reference model in module Lexing says; `AddToken`, `MatchChar` and
    `Peek` are specified directly. */
module Scanning {
  import opened Tokens
  import opened Session
  import opened Lexing

  class Scanner {
    const source: string
    var tokens: seq<Token>
    var start: nat
    var current: nat
    var line: nat
    const session: Lox

    /** The cursor invariant `start <= current <= |source|`, lines counted from 1. */
    ghost predicate Valid()
      reads this, session
    {
      start <= current <= |source| && 1 <= line && session.Valid()
    }

    /** The cursor in the reference model's terms. */
    ghost function At(): Cursor
      reads this
    {
      Cursor(current, line)
    }

    constructor (source: string)
      ensures Valid() && fresh(session)
      ensures this.source == source && tokens == []
      ensures start == 0 && current == 0 && line == 1
      ensures !session.hadError && session.reports == []
    {
      this.source := source;
      tokens := [];
      start := 0;
      current := 0;
      line := 1;
      session := new Lox();
    }

    /** The scan loop's exit test; when it is false the next character exists.
        Lexing.AtEndScansNothing shows it is true exactly when nothing is left to scan. */
    predicate IsAtEnd()
      reads this
      ensures !IsAtEnd() ==> current < |source|
    {
      current >= |source|
    }

    /** Appends the token spanning `source[start..current]` on the current line. */
    method AddToken(tokenType: TokenType, literal: Literal)
      requires start <= current <= |source|
      modifies this`tokens
      ensures tokens == old(tokens) + [Token(tokenType, source[start..current], literal, line)]
    {
      tokens := tokens + [Token(tokenType, source[start..current], literal, line)];
    }

    /** Consumes the next character when it is `expected`. */
    method MatchChar(expected: char) returns (matched: bool)
      modifies this`current
      ensures matched <==> old(current) < |source| && source[old(current)] == expected
      ensures current == if matched then old(current) + 1 else old(current)
    {
      if IsAtEnd() {
        return false;
      }
      if source[current] != expected {
        return false;
      }
      current := current + 1;
      return true;
    }

    /** The next unconsumed character, or `'\0'` past the end; changes nothing. */
    method Peek() returns (c: char)
      ensures current < |source| ==> c == source[current]
      ensures current >= |source| ==> c == '\0'
    {
      if IsAtEnd() {
        return '\0';
      }
      return source[current];
    }

    /** Consumes one character (two for an operator with `=`, or a slash and
        the character after it) and emits at most one token. */
    method ScanToken()
      requires Valid() && start == current < |source|
      modifies this`current, this`line, this`tokens, session
      ensures Valid() && start == old(start)
      ensures var e := ScanTokenAt(source, old(At()));
              At() == e.next &&
              tokens == old(tokens) + ToSeq(e.token) &&
              session.reports == old(session.reports) + ToSeq(e.report)
    {
      var c := source[current];
      current := current + 1;
      match c
      case '(' => AddToken(LeftParen, Literal.Nil);
      case ')' => AddToken(RightParen, Literal.Nil);
      case '{' => AddToken(LeftBrace, Literal.Nil);
      case '}' => AddToken(RightBrace, Literal.Nil);
      case ',' => AddToken(Comma, Literal.Nil);
      case '.' => AddToken(Dot, Literal.Nil);
      case '-' => AddToken(Minus, Literal.Nil);
      case '+' => AddToken(Plus, Literal.Nil);
      case ';' => AddToken(Semicolon, Literal.Nil);
      case '*' => AddToken(Star, Literal.Nil);
      case '!' =>
        var m := MatchChar('=');
        if m { AddToken(BangEqual, Literal.Nil); } else { AddToken(Bang, Literal.Nil); }
      case '=' =>
        var m := MatchChar('=');
        if m { AddToken(EqualEqual, Literal.Nil); } else { AddToken(Equal, Literal.Nil); }
      case '<' =>
        var m := MatchChar('=');
        if m { AddToken(LessEqual, Literal.Nil); } else { AddToken(Equal, Literal.Nil); }
      case '>' =>
        var m := MatchChar('=');
        if m { AddToken(GreaterEqual, Literal.Nil); } else { AddToken(Greater, Literal.Nil); }
      case '/' =>
        var p := Peek();
        if p != '\n' && !IsAtEnd() {
          current := current + 1;
        } else {
          AddToken(Slash, Literal.Nil);
        }
      case ' ' | '\r' | '\t' =>
      case '\n' => line := line + 1;
      case _ => session.Error(line, UnexpectedCharacter);
    }

    /** Scans to the end of the input and appends the Eof token. */
    method ScanTokens()
      requires Valid()
      modifies this, session
      ensures Valid()
      ensures var run := ScanFrom(source, old(At()));
              tokens == old(tokens) + run.tokens + [EofToken(run.final.line)] &&
              session.reports == old(session.reports) + run.reports &&
              At() == run.final
      ensures session.hadError <==> old(session.hadError) || ScanFrom(source, old(At())).reports != []
    {
      ghost var run := ScanFrom(source, At());
      ghost var tokens0, reports0 := tokens, session.reports;
      while !IsAtEnd()
        invariant Valid()
        invariant tokens0 + run.tokens == tokens + ScanFrom(source, At()).tokens
        invariant reports0 + run.reports == session.reports + ScanFrom(source, At()).reports
        invariant run.final == ScanFrom(source, At()).final
        decreases |source| - current
      {
        start := current;
        ghost var before, tokens1, reports1 := At(), tokens, session.reports;
        ScanToken();
        ghost var e := ScanTokenAt(source, before);
        ghost var rest := ScanFrom(source, e.next);
        assert At() == e.next;
        ScanFromStep(source, before);
        AppendStep(tokens1, e.token, rest.tokens);
        AppendStep(reports1, e.report, rest.reports);
      }
      tokens := tokens + [EofToken(line)];
    }
  }

  /** Scanning a whole source with a fresh scanner yields exactly the
      reference token list, and raises the session's flag exactly when
      something was reported. */
  method Tokenize(source: string) returns (tokens: seq<Token>, hadError: bool)
    ensures tokens == Scan(source)
    ensures hadError <==> ScanReports(source) != []
  {
    var scanner := new Scanner(source);
    scanner.ScanTokens();
    tokens := scanner.tokens;
    hadError := scanner.session.hadError;
  }
}
