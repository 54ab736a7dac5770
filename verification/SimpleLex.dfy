/**
  The five-state lexer of the heuristics commands, the round trip with the quoting printer,
  and the command parser that runs it twice.
*/
module SimpleLex {
  import opened Tlv
  import opened Chars
  import opened Dynar

  datatype LexType = Plain | Backslashes | Quotes

  /** The states 1 to 5 of the source. */
  datatype LexState = SkipSpaces | InWord | AfterBackslash | InQuotes | AfterQuotedBackslash

  datatype Token = Token(text: string, rest: string)

  /** What one character does in a state: stop, or go on in a state with some characters
      added, after consuming the character or not. */
  datatype Move = Stop | Go(next: LexState, add: string, consume: bool)

  function MoveOn(kind: LexType, state: LexState, ch: char): Move {
    match state
    case SkipSpaces =>
      if IsNewline(ch) then Stop
      else if IsSpace(ch) then Go(SkipSpaces, "", true)
      else Go(InWord, "", false)
    case InWord =>
      if kind != Plain && ch == '\\' then Go(AfterBackslash, "", true)
      else if kind == Quotes && ch == '"' then Go(InQuotes, "", true)
      else if IsSpace(ch) then Stop
      else Go(InWord, [ch], true)
    case AfterBackslash =>
      if IsNewline(ch) then Stop else Go(InWord, [ch], true)
    case InQuotes =>
      if ch == '\\' then Go(AfterQuotedBackslash, "", true)
      else if ch == '"' then Go(InWord, "", true)
      else if IsNewline(ch) then Stop
      else Go(InQuotes, [ch], true)
    case AfterQuotedBackslash =>
      if IsNewline(ch) then Stop
      else if ch == '\\' || ch == '"' then Go(InQuotes, [ch], true)
      else Go(InQuotes, ['\\', ch], true)
  }

  /** The token that starts in `state` with `text` already read, and the input that is left. */
  function Scan(kind: LexType, state: LexState, text: string, input: string): Token
    decreases |input|, if state == SkipSpaces then 1 else 0
  {
    if input == "" then Token(text, input)
    else
      match MoveOn(kind, state, input[0])
      case Stop => Token(text, input)
      case Go(next, add, consume) => Scan(kind, next, text + add, if consume then input[1..] else input)
  }

  /** A backslash read inside quotes is the one character that may still be added. */
  function Slack(state: LexState): nat {
    if state == AfterQuotedBackslash then 1 else 0
  }

  /** The token never outgrows the input consumed. */
  lemma {:induction false} TokenBound(kind: LexType, state: LexState, text: string, input: string)
    ensures var t := Scan(kind, state, text, input);
            && |text| <= |t.text|
            && |t.text| + |t.rest| <= |text| + |input| + Slack(state)
            && |t.rest| <= |input|
            && t.rest == input[|input| - |t.rest|..]
    decreases |input|, if state == SkipSpaces then 1 else 0
  {
    if input != "" {
      match MoveOn(kind, state, input[0])
      case Stop =>
      case Go(next, add, consume) =>
        TokenBound(kind, next, text + add, if consume then input[1..] else input);
    }
  }

  /** One character of the token that is being read. */
  lemma OneMove(kind: LexType, state: LexState, text: string, input: string, t: Token)
    requires input != "" && Scan(kind, state, text, input) == t
    ensures var m := MoveOn(kind, state, input[0]);
            && (m.Stop? ==> t == Token(text, input))
            && (m.Go? ==> Scan(kind, m.next, text + m.add, if m.consume then input[1..] else input) == t && |text + m.add| <= |t.text|)
  {
    var m := MoveOn(kind, state, input[0]);
    if m.Go? {
      TokenBound(kind, m.next, text + m.add, if m.consume then input[1..] else input);
    }
  }

  // ---------------------------------------------------------------- the lexer

  class Lexer {
    const input: string
    const kind: LexType
    const maximum: nat
    var pos: nat
    var token: string

    constructor (input: string, kind: LexType, maximum: nat)
      ensures this.input == input && this.kind == kind && this.maximum == maximum && pos == 0
    {
      this.input, this.kind, this.maximum := input, kind, maximum;
      pos, token := 0, "";
    }

    /** dynar_cat on the token buffer. */
    method Add(add: string) returns (ok: bool)
      modifies this`token
      ensures ok <==> |old(token)| + |add| <= maximum
      ensures token == if ok then old(token) + add else old(token)
    {
      ok := |token| + |add| <= maximum;
      if ok {
        token := token + add;
      }
    }

    /** The next token; it fails exactly when the token and its terminator do not fit, and so
        never when the input is shorter than the maximum. */
    method TokenNext() returns (ok: bool)
      requires pos <= |input|
      modifies this
      ensures pos <= |input|
      ensures var t := Scan(kind, SkipSpaces, "", input[old(pos)..]);
              && (ok <==> |t.text| < maximum)
              && (ok ==> token == t.text && input[pos..] == t.rest)
              && (!ok ==> pos == old(pos))
      ensures |input| < maximum ==> ok
    {
      ghost var t := Scan(kind, SkipSpaces, "", input[pos..]);
      TokenBound(kind, SkipSpaces, "", input[pos..]);
      token := "";
      var state := SkipSpaces;
      var p := pos;
      var reading := true;
      while reading
        invariant pos == old(pos) <= p <= |input| && |token| <= maximum
        invariant Scan(kind, state, token, input[p..]) == t
        invariant !reading ==> t == Token(token, input[p..])
        decreases reading, |input| - p, if state == SkipSpaces then 1 else 0
      {
        if p >= |input| {
          reading := false;
          continue;
        }
        assert input[p..][0] == input[p] && input[p..][1..] == input[p + 1..];
        OneMove(kind, state, token, input[p..], t);
        match MoveOn(kind, state, input[p]) {
          case Stop => reading := false;
          case Go(next, add, consume) =>
            ok := Add(add);
            if !ok {
              return;
            }
            state := next;
            if consume {
              p := p + 1;
            }
        }
      }
      ok := |token| + 1 <= maximum;
      if ok {
        pos := p;
      }
    }
  }

  // ---------------------------------------------------------------- all tokens of a line

  /** The tokens up to the first empty one. */
  function Tokens(kind: LexType, input: string): seq<string>
    decreases |input|
  {
    var t := Scan(kind, SkipSpaces, "", input);
    TokenBound(kind, SkipSpaces, "", input);
    if t.text == "" then [] else [t.text] + Tokens(kind, t.rest)
  }

  /** The printer: quoted strings with a space between them. */
  function Printed(ts: seq<string>): string {
    if ts == [] then ""
    else if |ts| == 1 then Quoted(ts[0])
    else Quoted(ts[0]) + " " + Printed(ts[1..])
  }

  /** No line end and no terminator inside. */
  predicate Printable(s: string) {
    forall ch | ch in s :: !IsNewline(ch) && ch != '\0'
  }

  function BeforeEmpty(ts: seq<string>): (r: seq<string>)
    ensures r <= ts && (r == ts <==> "" !in ts)
  {
    if ts == [] || ts[0] == "" then [] else [ts[0]] + BeforeEmpty(ts[1..])
  }

  lemma EscapedFront(s: string)
    requires s != ""
    ensures Escaped(s) == EscapedChar(s[0]) + Escaped(s[1..])
  {
    EscapedSplit([s[0]], s[1..]);
    assert s == [s[0]] + s[1..];
    EscapedOne(s[0]);
  }

  lemma EscapedOne(ch: char)
    ensures Escaped([ch]) == EscapedChar(ch)
  {
    assert [ch][..0] == "" && Escaped("") == "";
    assert "" + EscapedChar(ch) == EscapedChar(ch);
  }

  lemma {:induction false} EscapedSplit(a: string, b: string)
    ensures Escaped(a + b) == Escaped(a) + Escaped(b)
    decreases |b|
  {
    if b == "" {
      assert a + b == a;
    } else {
      var n := |b| - 1;
      assert (a + b)[..|a + b| - 1] == a + b[..n];
      EscapedSplit(a, b[..n]);
    }
  }

  /** Inside quotes the lexer gives back what was escaped and arrives behind the quote. */
  lemma {:induction false} ScanEscaped(s: string, text: string, after: string)
    requires forall ch | ch in s :: !IsNewline(ch)
    ensures Scan(Quotes, InQuotes, text, Escaped(s) + "\"" + after) == Scan(Quotes, InWord, text + s, after)
    decreases |s|
  {
    var input := Escaped(s) + "\"" + after;
    if s == "" {
      assert input[0] == '"' && input[1..] == after;
      assert text + "" == text && text + s == text;
    } else {
      EscapedFront(s);
      var rest := Escaped(s[1..]) + "\"" + after;
      assert input == EscapedChar(s[0]) + rest;
      assert s[0] in s && forall ch | ch in s[1..] :: ch in s;
      ScanEscaped(s[1..], text + [s[0]], after);
      assert text + [s[0]] + s[1..] == text + s;
      OneEscaped(s[0], text, rest);
    }
  }

  lemma OneEscaped(ch: char, text: string, rest: string)
    requires !IsNewline(ch)
    ensures Scan(Quotes, InQuotes, text, EscapedChar(ch) + rest) == Scan(Quotes, InQuotes, text + [ch], rest)
  {
    var input := EscapedChar(ch) + rest;
    if ch == '"' || ch == '\\' {
      assert input[0] == '\\' && input[1..] == [ch] + rest;
      assert ([ch] + rest)[0] == ch && ([ch] + rest)[1..] == rest;
      assert text + "" == text;
      assert Scan(Quotes, InQuotes, text, input) == Scan(Quotes, AfterQuotedBackslash, text, [ch] + rest);
    } else {
      assert input[0] == ch && input[1..] == rest;
    }
  }

  /** A quoted string at the start of the input is one token. */
  lemma ScanQuoted(s: string, after: string)
    requires forall ch | ch in s :: !IsNewline(ch)
    requires after == "" || IsSpace(after[0])
    ensures Scan(Quotes, SkipSpaces, "", Quoted(s) + after) == Token(s, after)
  {
    var body := Escaped(s) + "\"" + after;
    var input := Quoted(s) + after;
    assert input[0] == '"' && input[1..] == body;
    assert "" + "" == "" && "" + s == s;
    ScanEscaped(s, "", after);
    assert Scan(Quotes, InWord, "", input) == Scan(Quotes, InQuotes, "", body);
  }

  lemma SpaceSkipped(input: string)
    ensures Scan(Quotes, SkipSpaces, "", " " + input) == Scan(Quotes, SkipSpaces, "", input)
  {
    assert (" " + input)[0] == ' ' && (" " + input)[1..] == input;
    assert "" + "" == "";
  }

  lemma TokensSkipSpace(input: string)
    ensures Tokens(Quotes, " " + input) == Tokens(Quotes, input)
  {
    SpaceSkipped(input);
  }

  /** Quoting each string, joining with spaces and lexing gives the strings back up to the
      first empty one, which reads as the end of the line. */
  lemma {:induction false} QuotedTokens(ts: seq<string>)
    requires forall t | t in ts :: Printable(t)
    ensures Tokens(Quotes, Printed(ts)) == BeforeEmpty(ts)
  {
    if ts == [] {
    } else if |ts| == 1 {
      assert ts[0] in ts;
      ScanQuoted(ts[0], "");
      assert Quoted(ts[0]) + "" == Quoted(ts[0]);
      assert Tokens(Quotes, "") == [] && BeforeEmpty(ts[1..]) == [];
    } else {
      var rest := Printed(ts[1..]);
      assert ts[0] in ts;
      ScanQuoted(ts[0], " " + rest);
      assert Printed(ts) == Quoted(ts[0]) + (" " + rest);
      QuotedTokens(ts[1..]);
      TokensSkipSpace(rest);
    }
  }

  /** So the round trip is exact if and only if no string is empty. */
  lemma {:induction false} QuoteRoundTrip(ts: seq<string>)
    requires forall t | t in ts :: Printable(t)
    ensures Tokens(Quotes, Printed(ts)) == ts <==> "" !in ts
  {
    QuotedTokens(ts);
  }

  // ---------------------------------------------------------------- the command parser

  method CountTokens(command: string) returns (n: nat)
    ensures n == |Tokens(Quotes, command)|
  {
    var lex := new Lexer(command, Quotes, |command| + 1);
    n := 0;
    var finished := false;
    while !finished
      invariant lex.pos <= |command| && lex.input == command && lex.kind == Quotes && lex.maximum == |command| + 1
      invariant n + (if finished then 0 else |Tokens(Quotes, command[lex.pos..])|) == |Tokens(Quotes, command)|
      invariant fresh(lex)
      decreases !finished, |command| - lex.pos
    {
      TokenBound(Quotes, SkipSpaces, "", command[lex.pos..]);
      var ok := lex.TokenNext();
      if lex.token == "" {
        finished := true;
      } else {
        n := n + 1;
      }
    }
  }

  /** The second pass fills exactly the slots the first has counted; a command without a token
      is refused. */
  method ParseCommand(command: string) returns (argv: Option<seq<string>>)
    ensures var ts := Tokens(Quotes, command); argv == if ts == [] then None else Some(ts)
  {
    var n := CountTokens(command);
    if n < 1 {
      return None;
    }
    ghost var ts := Tokens(Quotes, command);
    var slots := new string[n](_ => "");
    var lex := new Lexer(command, Quotes, |command| + 1);
    var finished := false;
    var zi := 0;
    assert ts[0..] == ts;
    while !finished
      invariant zi <= n && lex.pos <= |command|
      invariant lex.input == command && lex.kind == Quotes && lex.maximum == |command| + 1
      invariant if finished then zi == n else ts[zi..] == Tokens(Quotes, command[lex.pos..])
      invariant slots[..zi] == ts[..zi]
      invariant fresh(lex) && fresh(slots)
      decreases !finished, |command| - lex.pos
    {
      TokenBound(Quotes, SkipSpaces, "", command[lex.pos..]);
      var ok := lex.TokenNext();
      if lex.token == "" {
        finished := true;
      } else {
        assert ts[zi] == lex.token && ts[zi + 1..] == ts[zi..][1..];
        slots[zi] := lex.token;
        zi := zi + 1;
      }
    }
    assert slots[..] == slots[..n] && ts[..n] == ts;
    argv := Some(slots[..]);
  }
}
