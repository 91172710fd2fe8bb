/** The single-pass character scanner (lexer.py). The scanner state is a
    record; every operation returns the updated record instead of mutating
    it. */
module Lexer {
  import opened Common
  import opened Tokens

  /** `peek` reads `source[curr]` without a bounds check, so a `#` comment
      that runs to the end of the input raises an IndexError. */
  datatype LexError = UnterminatedComment

  /** Scanner state: the source, the start and cursor of the current
      lexeme, the current line and the tokens emitted so far. */
  datatype Lexer = Lexer(source: string, start: nat, curr: nat, line: int, tokens: seq<Token>)

  predicate Valid(lx: Lexer) {
    lx.start <= lx.curr <= |lx.source|
  }

  /** The state `Lexer.__init__` builds. */
  function Init(source: string): (lx: Lexer)
    ensures lx.source == source && lx.start == 0 && lx.curr == 0 && lx.line == 1 && lx.tokens == []
  {
    Lexer(source, 0, 0, 1, [])
  }

  /** The single-character tokens the elif chain recognises, with their
      kinds; every other character has no entry. */
  function PunctKind(c: char): Option<TokenType> {
    match c
    case '(' => Some(LPAREN)
    case ')' => Some(RPAREN)
    case '{' => Some(LCURLY)
    case '}' => Some(RCURLY)
    case '[' => Some(LSQUAR)
    case ']' => Some(RSQUAR)
    case '.' => Some(DOT)
    case ',' => Some(COMMA)
    case '+' => Some(PLUS)
    case '-' => Some(MINUS)
    case '*' => Some(STAR)
    case '^' => Some(CARET)
    case '/' => Some(SLASH)
    case ';' => Some(SEMICOLON)
    case '?' => Some(QUESTION)
    case '%' => Some(MOD)
    case _ => None
  }

  /** A token the scanner can emit: one punctuation character, of the kind
      the table assigns to it, with no literal value. */
  predicate IsPunctToken(t: Token) {
    |t.lexeme| == 1 && PunctKind(t.lexeme[0]) == Some(t.kind) && t.literal == NoLiteral
  }

  /** Number of newline characters in `s`. */
  function Newlines(s: string): nat {
    if s == [] then 0 else (if s[0] == '\n' then 1 else 0) + Newlines(s[1..])
  }

  /** No newline among `s[a..b]`. */
  predicate NoNewline(s: string, a: nat, b: nat)
    requires a <= b <= |s|
  {
    forall j | a <= j < b :: s[j] != '\n'
  }

  /** Some `#` at or after `from` has no newline after it. */
  predicate OpenComment(s: string, from: nat) {
    exists i :: from <= i < |s| && s[i] == '#' && NoNewline(s, i, |s|)
  }

  // ---------------------------------------------------------------------
  // Cursor primitives

  /** Consumes the character under the cursor and returns it. */
  function Advance(lx: Lexer): (r: (Lexer, char))
    requires lx.curr < |lx.source|
    ensures r.0.curr == lx.curr + 1 && r.1 == lx.source[lx.curr]
    ensures r.0 == lx.(curr := lx.curr + 1)
  {
    (lx.(curr := lx.curr + 1), lx.source[lx.curr])
  }

  /** The character under the cursor; `None` where Python's unchecked
      index raises. */
  function Peek(lx: Lexer): (r: Option<char>)
    ensures r.Some? <==> lx.curr < |lx.source|
    ensures r.Some? ==> r.value == lx.source[lx.curr]
  {
    if lx.curr < |lx.source| then Some(lx.source[lx.curr]) else None
  }

  /** The character `n` places past the cursor, or nothing past the end. */
  function Lookahead(lx: Lexer, n: nat): (r: Option<char>)
    ensures r.Some? <==> lx.curr + n < |lx.source|
    ensures r.Some? ==> r.value == lx.source[lx.curr + n]
  {
    if lx.curr + n < |lx.source| then Some(lx.source[lx.curr + n]) else None
  }

  /** Consumes the character under the cursor only if it is `expected`. */
  function Match(lx: Lexer, expected: char): (r: (bool, Lexer))
    ensures r.0 <==> lx.curr < |lx.source| && lx.source[lx.curr] == expected
    ensures r.0 ==> r.1 == lx.(curr := lx.curr + 1)
    ensures !r.0 ==> r.1 == lx
  {
    if lx.curr >= |lx.source| then (false, lx)
    else if lx.source[lx.curr] != expected then (false, lx)
    else (true, lx.(curr := lx.curr + 1))
  }

  /** Appends a token covering `source[start..curr]` on the current line. */
  function AddToken(lx: Lexer, kind: TokenType): (r: Lexer)
    requires Valid(lx)
    ensures r.tokens == lx.tokens + [Token(kind, lx.source[lx.start..lx.curr], lx.line, NoLiteral)]
    ensures r.source == lx.source && r.start == lx.start && r.curr == lx.curr && r.line == lx.line
  {
    lx.(tokens := lx.tokens + [Token(kind, lx.source[lx.start..lx.curr], lx.line, NoLiteral)])
  }

  // ---------------------------------------------------------------------
  // Scanning

  /** The inner loop of the `#` branch: advance until the cursor sits on a
      newline, which is left for the main loop to count. */
  function SkipComment(lx: Lexer): (r: Result<Lexer, LexError>)
    requires Valid(lx)
    ensures r.Success? <==> !NoNewline(lx.source, lx.curr, |lx.source|)
    ensures r.Success? ==> lx.curr <= r.value.curr < |lx.source|
    ensures r.Success? ==> lx.source[r.value.curr] == '\n' && NoNewline(lx.source, lx.curr, r.value.curr)
    ensures r.Success? ==> r.value == lx.(curr := r.value.curr)
    decreases |lx.source| - lx.curr
  {
    match Peek(lx)
    case None => Failure(UnterminatedComment)
    case Some(c) =>
      if c == '\n' then Success(lx)
      else
        SkipComment(Advance(lx).0)
  }

  /** One iteration of the `tokenize` loop: mark the lexeme start, consume
      one character and dispatch on it. */
  function Step(lx: Lexer): (r: Result<Lexer, LexError>)
    requires Valid(lx) && lx.curr < |lx.source|
    ensures r.Success? ==> Valid(r.value) && r.value.source == lx.source && r.value.curr > lx.curr
    ensures r.Failure? <==> lx.source[lx.curr] == '#' && NoNewline(lx.source, lx.curr, |lx.source|)
    ensures lx.source[lx.curr] == '\n' ==>
              r.Success? && r.value.line == lx.line + 1 && r.value.tokens == lx.tokens
              && r.value.curr == lx.curr + 1
    ensures lx.source[lx.curr] in {' ', '\t', '\r'} ==>
              r.Success? && r.value.line == lx.line && r.value.tokens == lx.tokens
              && r.value.curr == lx.curr + 1
    ensures lx.source[lx.curr] != '\n' && lx.source[lx.curr] != '#' ==>
              r.Success? && r.value.line == lx.line && r.value.curr == lx.curr + 1
              && r.value.tokens == lx.tokens + PunctToken(lx.source[lx.curr], lx.line)
    ensures lx.source[lx.curr] == '#' && r.Success? ==>
              r.value.line == lx.line && r.value.tokens == lx.tokens
              && r.value.curr < |lx.source| && lx.source[r.value.curr] == '\n' && NoNewline(lx.source, lx.curr, r.value.curr)
  {
    var (lx1, ch) := Advance(lx.(start := lx.curr));
    if ch == '\n' then Success(lx1.(line := lx1.line + 1))
    else if ch == ' ' then Success(lx1)
    else if ch == '\t' then Success(lx1)
    else if ch == '\r' then Success(lx1)
    else if ch == '#' then SkipComment(lx1)
    else
      match PunctKind(ch)
      case Some(kind) =>
        assert lx.source[lx.curr..lx.curr + 1] == [ch];
        Success(AddToken(lx1, kind))
      case None => Success(lx1)
  }

  /** The token a character outside a comment contributes: one token for
      punctuation, nothing otherwise. */
  function PunctToken(c: char, line: int): seq<Token> {
    match PunctKind(c)
    case Some(kind) => [Token(kind, [c], line, NoLiteral)]
    case None => []
  }

  /** The `tokenize` loop, run from any valid state to the end of input. */
  function Scan(lx: Lexer): (r: Result<Lexer, LexError>)
    requires Valid(lx)
    ensures r.Success? ==> Valid(r.value) && r.value.source == lx.source && r.value.curr == |lx.source|
    decreases |lx.source| - lx.curr
  {
    if lx.curr >= |lx.source| then Success(lx)
    else
      match Step(lx)
      case Failure(e) => Failure(e)
      case Success(next) => Scan(next)
  }

  /** `Lexer(source).tokenize()`. */
  function Tokenize(source: string): (r: Result<seq<Token>, LexError>)
    ensures r == Reference(source, 1)
    ensures r.Failure? <==> OpenComment(source, 0)
    ensures r.Success? ==> |r.value| <= |source|
    ensures r.Success? ==> forall i | 0 <= i < |r.value| :: IsPunctToken(r.value[i])
  {
    ScanFailsIffOpenComment(Init(source));
    ScanMatchesReference(Init(source));
    assert source[0..] == source;
    ReferenceTokens(source, 1);
    match Scan(Init(source))
    case Failure(e) =>
      assert Reference(source, 1).Failure?;
      assert e == UnterminatedComment && Reference(source, 1).error == UnterminatedComment;
      Failure(e)
    case Success(lx) =>
      assert [] + Reference(source, 1).value == Reference(source, 1).value;
      Success(lx.tokens)
  }

  /** The line counter after scanning the whole source. */
  function FinalLine(source: string): (r: Option<int>)
    ensures r.Some? <==> !OpenComment(source, 0)
    ensures r.Some? ==> r.value == 1 + Newlines(source)
  {
    ScanFailsIffOpenComment(Init(source));
    ScanCountsLines(Init(source));
    assert source[0..] == source;
    match Scan(Init(source))
    case Failure(_) => None
    case Success(lx) => Some(lx.line)
  }

  // ---------------------------------------------------------------------
  // Reference definition: the tokens of a text, read off the text itself

  /** Index of the first newline in `s`. */
  function FirstNewline(s: string): (k: nat)
    requires '\n' in s
    ensures k < |s| && s[k] == '\n' && NoNewline(s, 0, k)
  {
    if s[0] == '\n' then 0
    else
      assert s[1..] == s[1..];
      var k := FirstNewline(s[1..]);
      k + 1
  }

  /** The tokens of `s` starting on line `line`: a newline moves to the next
      line, a comment is dropped up to (not including) its newline and fails
      when there is none, each punctuation character is one token, and every
      other character is dropped. */
  function Reference(s: string, line: int): Result<seq<Token>, LexError>
    decreases |s|
  {
    if s == [] then Success([])
    else if s[0] == '\n' then Reference(s[1..], line + 1)
    else if s[0] == '#' then
      if '\n' in s then Reference(s[FirstNewline(s)..], line)
      else Failure(UnterminatedComment)
    else
      match Reference(s[1..], line)
      case Failure(e) => Failure(e)
      case Success(rest) => Success(PunctToken(s[0], line) + rest)
  }

  // ---------------------------------------------------------------------
  // Lemmas

  /** Dropping a stretch without newlines does not change the count. */
  lemma {:induction false} NewlinesSkip(s: string, a: nat, b: nat)
    requires a <= b <= |s| && NoNewline(s, a, b)
    ensures Newlines(s[a..]) == Newlines(s[b..])
    decreases b - a
  {
    if a < b {
      assert s[a..][1..] == s[a + 1..];
      NewlinesSkip(s, a + 1, b);
    }
  }

  /** Scanning from any state fails exactly when a `#` at or after the
      cursor has no newline after it. */
  lemma {:induction false} ScanFailsIffOpenComment(lx: Lexer)
    requires Valid(lx)
    ensures Scan(lx).Failure? <==> OpenComment(lx.source, lx.curr)
    decreases |lx.source| - lx.curr
  {
    var s := lx.source;
    if lx.curr < |s| {
      match Step(lx)
      case Failure(_) =>
        assert s[lx.curr] == '#' && NoNewline(s, lx.curr, |s|);
      case Success(next) =>
        ScanFailsIffOpenComment(next);
        if OpenComment(s, lx.curr) {
          var i :| lx.curr <= i < |s| && s[i] == '#' && NoNewline(s, i, |s|);
          assert OpenComment(s, next.curr);
        }
        if OpenComment(s, next.curr) {
          var i :| next.curr <= i < |s| && s[i] == '#' && NoNewline(s, i, |s|);
          assert OpenComment(s, lx.curr);
        }
    }
  }

  /** After a successful scan the line counter has grown by the number of
      newlines between the cursor and the end of the source. */
  lemma {:induction false} ScanCountsLines(lx: Lexer)
    requires Valid(lx)
    ensures Scan(lx).Success? ==> Scan(lx).value.line == lx.line + Newlines(lx.source[lx.curr..])
    decreases |lx.source| - lx.curr
  {
    var s := lx.source;
    if lx.curr < |s| {
      match Step(lx)
      case Failure(_) =>
      case Success(next) =>
        ScanCountsLines(next);
        assert s[lx.curr..][1..] == s[lx.curr + 1..];
        if s[lx.curr] == '#' {
          NewlinesSkip(s, lx.curr, next.curr);
        }
    }
  }

  /** Scanning keeps the tokens already emitted and appends exactly the
      tokens the reference definition reads off the rest of the source;
      both fail together. */
  lemma {:induction false} ScanMatchesReference(lx: Lexer)
    requires Valid(lx)
    ensures Scan(lx).Failure? <==> Reference(lx.source[lx.curr..], lx.line).Failure?
    ensures Scan(lx).Success? ==>
              Scan(lx).value.tokens == lx.tokens + Reference(lx.source[lx.curr..], lx.line).value
    decreases |lx.source| - lx.curr
  {
    var s := lx.source;
    if lx.curr < |s| {
      if s[lx.curr] == '#' {
        CommentMatchesReference(lx);
        if Step(lx).Success? {
          ScanMatchesReference(Step(lx).value);
        }
      } else {
        var next := Step(lx).value;
        CharMatchesReference(lx);
        ScanMatchesReference(next);
        assert Scan(lx) == Scan(next);
      }
    }
  }

  /** A step on any character but `#` agrees with one unfolding of the
      reference definition. */
  lemma {:induction false} CharMatchesReference(lx: Lexer)
    requires Valid(lx) && lx.curr < |lx.source| && lx.source[lx.curr] != '#'
    ensures Step(lx).Success?
    ensures var next := Step(lx).value;
      var here := Reference(lx.source[lx.curr..], lx.line);
      var there := Reference(lx.source[next.curr..], next.line);
      && (here.Failure? <==> there.Failure?)
      && (here.Success? ==> lx.tokens + here.value == next.tokens + there.value)
  {
    var s := lx.source;
    var rest := s[lx.curr..];
    var next := Step(lx).value;
    assert rest[0] == s[lx.curr];
    assert rest[1..] == s[next.curr..];
    if s[lx.curr] == '\n' {
      assert next.tokens == lx.tokens;
    } else {
      var here := Reference(rest, lx.line);
      var there := Reference(s[next.curr..], next.line);
      if here.Success? {
        assert here.value == PunctToken(s[lx.curr], lx.line) + there.value;
        assert lx.tokens + here.value == (lx.tokens + PunctToken(s[lx.curr], lx.line)) + there.value;
      }
    }
  }

  /** A step on `#` agrees with one unfolding of the reference definition:
      both fail without a newline, and otherwise both resume at it. */
  lemma {:induction false} CommentMatchesReference(lx: Lexer)
    requires Valid(lx) && lx.curr < |lx.source| && lx.source[lx.curr] == '#'
    ensures Step(lx).Failure? ==> Reference(lx.source[lx.curr..], lx.line).Failure?
    ensures Step(lx).Success? ==>
              Step(lx).value.tokens == lx.tokens && Step(lx).value.line == lx.line
              && Reference(lx.source[lx.curr..], lx.line) ==
                   Reference(lx.source[Step(lx).value.curr..], lx.line)
  {
    var s := lx.source;
    var rest := s[lx.curr..];
    assert rest[0] == '#';
    if Step(lx).Success? {
      var next := Step(lx).value;
      assert rest[next.curr - lx.curr] == '\n';
      var k := FirstNewline(rest);
      assert Reference(rest, lx.line) == Reference(rest[k..], lx.line);
      assert s[lx.curr + k] == '\n';
      assert k == next.curr - lx.curr;
      assert rest[k..] == s[next.curr..];
    } else {
      assert NoNewline(s, lx.curr, |s|);
      assert '\n' !in rest;
    }
  }

  /** Every token of the reference definition is one punctuation character;
      there are at most as many tokens as characters; token lines lie between
      the first and the last line of the text and never decrease. */
  lemma {:induction false} ReferenceTokens(s: string, line: int)
    ensures var r := Reference(s, line);
      r.Success? ==>
        && |r.value| <= |s|
        && (forall i | 0 <= i < |r.value| ::
              IsPunctToken(r.value[i]) && line <= r.value[i].line <= line + Newlines(s))
        && (forall i, j | 0 <= i < j < |r.value| :: r.value[i].line <= r.value[j].line)
    decreases |s|
  {
    if s != [] {
      if s[0] == '\n' {
        ReferenceTokens(s[1..], line + 1);
      } else if s[0] == '#' {
        if '\n' in s {
          var k := FirstNewline(s);
          NewlinesSkip(s, 0, k);
          assert s[0..] == s;
          ReferenceTokens(s[k..], line);
        }
      } else {
        ReferenceTokens(s[1..], line);
      }
    }
  }
}
