/**
  What the lexer reads, as a grammar of the line: blanks, then a word made of plain characters,
  escaped characters and quoted parts, then something that ends it. Every line is of this form,
  and its token is what the word means.
*/
module LexWords {
  import opened Tlv
  import opened Chars
  import opened SimpleLex

  /** A piece of a quoted part: a character, an escaped quote or backslash, or a backslash that
      is kept because another character follows it. */
  datatype QuotedPiece = Inside(ch: char) | InsideEscaped(ch: char) | InsideKept(ch: char)

  datatype Piece = Bare(ch: char) | Escape(ch: char) | Part(inner: seq<QuotedPiece>)

  /** How a word ends: as a whole, with a backslash that nothing follows, or inside quotes,
      again with or without such a backslash. */
  datatype Ending = Whole | Dangling | Unclosed(inner: seq<QuotedPiece>, dangling: bool)

  // ---------------------------------------------------------------- the grammar

  predicate BlankText(s: string) {
    forall i | 0 <= i < |s| :: IsSpace(s[i]) && !IsNewline(s[i])
  }

  /** Backslashes escape in two of the three kinds, quotes quote in one. */
  predicate GoodPiece(kind: LexType, p: Piece) {
    match p
    case Bare(ch) => !IsSpace(ch) && (ch == '\\' ==> kind == Plain) && (ch == '"' ==> kind != Quotes)
    case Escape(ch) => kind != Plain && !IsNewline(ch)
    case Part(inner) => kind == Quotes && GoodInner(inner)
  }

  predicate GoodInner(inner: seq<QuotedPiece>) {
    forall i | 0 <= i < |inner| :: GoodInside(inner[i])
  }

  predicate GoodInside(q: QuotedPiece) {
    match q
    case Inside(ch) => ch != '\\' && ch != '"' && !IsNewline(ch)
    case InsideEscaped(ch) => ch == '\\' || ch == '"'
    case InsideKept(ch) => ch != '\\' && ch != '"' && !IsNewline(ch)
  }

  predicate GoodWord(kind: LexType, word: seq<Piece>) {
    forall i | 0 <= i < |word| :: GoodPiece(kind, word[i])
  }

  predicate GoodEnding(kind: LexType, e: Ending) {
    match e
    case Whole => true
    case Dangling => kind != Plain
    case Unclosed(inner, _) => kind == Quotes && GoodInner(inner)
  }

  /** Nothing more, or a character that ends the word: any space behind a whole word, only a
      line end behind an unfinished one. */
  predicate Ends(e: Ending, rest: string) {
    rest == "" || IsNewline(rest[0]) || (e == Whole && IsSpace(rest[0]))
  }

  // ---------------------------------------------------------------- as written, as meant

  function InsideText(q: QuotedPiece): string {
    match q
    case Inside(ch) => [ch]
    case InsideEscaped(ch) => "\\" + [ch]
    case InsideKept(ch) => "\\" + [ch]
  }

  function InsideMeaning(q: QuotedPiece): string {
    match q
    case Inside(ch) => [ch]
    case InsideEscaped(ch) => [ch]
    case InsideKept(ch) => "\\" + [ch]
  }

  function InnerText(inner: seq<QuotedPiece>): string {
    if inner == [] then "" else InsideText(inner[0]) + InnerText(inner[1..])
  }

  function InnerMeaning(inner: seq<QuotedPiece>): string {
    if inner == [] then "" else InsideMeaning(inner[0]) + InnerMeaning(inner[1..])
  }

  function PieceText(p: Piece): string {
    match p
    case Bare(ch) => [ch]
    case Escape(ch) => "\\" + [ch]
    case Part(inner) => "\"" + InnerText(inner) + "\""
  }

  function PieceMeaning(p: Piece): string {
    match p
    case Bare(ch) => [ch]
    case Escape(ch) => [ch]
    case Part(inner) => InnerMeaning(inner)
  }

  function WordText(word: seq<Piece>): string {
    if word == [] then "" else PieceText(word[0]) + WordText(word[1..])
  }

  function Meaning(word: seq<Piece>): string {
    if word == [] then "" else PieceMeaning(word[0]) + Meaning(word[1..])
  }

  function EndingText(e: Ending): string {
    match e
    case Whole => ""
    case Dangling => "\\"
    case Unclosed(inner, dangling) => "\"" + InnerText(inner) + if dangling then "\\" else ""
  }

  function EndingMeaning(e: Ending): string {
    match e
    case Unclosed(inner, _) => InnerMeaning(inner)
    case _ => ""
  }

  // ---------------------------------------------------------------- reading

  /** One character that is taken. */
  lemma Taken(kind: LexType, state: LexState, text: string, ch: char, rest: string, next: LexState, add: string)
    requires MoveOn(kind, state, ch) == Go(next, add, true)
    ensures Scan(kind, state, text, [ch] + rest) == Scan(kind, next, text + add, rest)
  {
    assert ([ch] + rest)[0] == ch && ([ch] + rest)[1..] == rest;
  }

  lemma {:induction false} BlanksSkipped(kind: LexType, gap: string, text: string, rest: string)
    requires BlankText(gap)
    ensures Scan(kind, SkipSpaces, text, gap + rest) == Scan(kind, SkipSpaces, text, rest)
    decreases |gap|
  {
    if gap == "" {
      assert gap + rest == rest;
    } else {
      assert gap + rest == [gap[0]] + (gap[1..] + rest);
      Taken(kind, SkipSpaces, text, gap[0], gap[1..] + rest, SkipSpaces, "");
      assert text + "" == text;
      BlanksSkipped(kind, gap[1..], text, rest);
    }
  }

  lemma InsideRead(q: QuotedPiece, text: string, rest: string)
    requires GoodInside(q)
    ensures Scan(Quotes, InQuotes, text, InsideText(q) + rest) == Scan(Quotes, InQuotes, text + InsideMeaning(q), rest)
  {
    if q.Inside? {
      Taken(Quotes, InQuotes, text, q.ch, rest, InQuotes, [q.ch]);
    } else {
      assert InsideText(q) + rest == ['\\'] + ([q.ch] + rest);
      Taken(Quotes, InQuotes, text, '\\', [q.ch] + rest, AfterQuotedBackslash, "");
      assert text + "" == text && ['\\', q.ch] == "\\" + [q.ch];
      Taken(Quotes, AfterQuotedBackslash, text, q.ch, rest, InQuotes, InsideMeaning(q));
    }
  }

  lemma {:induction false} InnerRead(inner: seq<QuotedPiece>, text: string, rest: string)
    requires GoodInner(inner)
    ensures Scan(Quotes, InQuotes, text, InnerText(inner) + rest) == Scan(Quotes, InQuotes, text + InnerMeaning(inner), rest)
    decreases |inner|
  {
    if inner == [] {
      assert InnerText(inner) + rest == rest && text + InnerMeaning(inner) == text;
    } else {
      var q, more := inner[0], inner[1..];
      InsideRead(q, text, InnerText(more) + rest);
      InnerRead(more, text + InsideMeaning(q), rest);
      Regrouped(InsideText(q), InnerText(more), rest);
      Regrouped(text, InsideMeaning(q), InnerMeaning(more));
    }
  }

  lemma PieceRead(kind: LexType, p: Piece, text: string, rest: string)
    requires GoodPiece(kind, p)
    ensures Scan(kind, InWord, text, PieceText(p) + rest) == Scan(kind, InWord, text + PieceMeaning(p), rest)
  {
    match p
    case Bare(ch) =>
      Taken(kind, InWord, text, ch, rest, InWord, [ch]);
    case Escape(ch) =>
      assert PieceText(p) + rest == ['\\'] + ([ch] + rest) && text + "" == text;
      Taken(kind, InWord, text, '\\', [ch] + rest, AfterBackslash, "");
      Taken(kind, AfterBackslash, text, ch, rest, InWord, [ch]);
    case Part(inner) =>
      PartRead(inner, text, rest);
  }

  lemma PartRead(inner: seq<QuotedPiece>, text: string, rest: string)
    requires GoodInner(inner)
    ensures Scan(Quotes, InWord, text, "\"" + InnerText(inner) + "\"" + rest) == Scan(Quotes, InWord, text + InnerMeaning(inner), rest)
  {
    var behind, now := ['"'] + rest, text + InnerMeaning(inner);
    UnclosedSplit(inner, "\"", rest);
    assert text + "" == text && now + "" == now;
    Taken(Quotes, InWord, text, '"', InnerText(inner) + behind, InQuotes, "");
    InnerRead(inner, text, behind);
    Taken(Quotes, InQuotes, now, '"', rest, InWord, "");
  }

  lemma {:induction false} WordRead(kind: LexType, word: seq<Piece>, text: string, rest: string)
    requires GoodWord(kind, word)
    ensures Scan(kind, InWord, text, WordText(word) + rest) == Scan(kind, InWord, text + Meaning(word), rest)
    decreases |word|
  {
    if word == [] {
      assert WordText(word) + rest == rest && text + Meaning(word) == text;
    } else {
      var p, more := word[0], word[1..];
      PieceRead(kind, p, text, WordText(more) + rest);
      WordRead(kind, more, text + PieceMeaning(p), rest);
      Regrouped(PieceText(p), WordText(more), rest);
      Regrouped(text, PieceMeaning(p), Meaning(more));
    }
  }

  lemma Stops(kind: LexType, state: LexState, text: string, rest: string)
    requires rest == "" || MoveOn(kind, state, rest[0]) == Stop
    ensures Scan(kind, state, text, rest) == Token(text, rest)
  {
  }

  lemma UnclosedRead(inner: seq<QuotedPiece>, dangling: bool, text: string, rest: string)
    requires GoodInner(inner) && (rest == "" || IsNewline(rest[0]))
    ensures Scan(Quotes, InQuotes, text, InnerText(inner) + ((if dangling then "\\" else "") + rest))
            == Token(text + InnerMeaning(inner), rest)
  {
    var now := text + InnerMeaning(inner);
    InnerRead(inner, text, (if dangling then "\\" else "") + rest);
    if dangling {
      Taken(Quotes, InQuotes, now, '\\', rest, AfterQuotedBackslash, "");
      assert now + "" == now;
      Stops(Quotes, AfterQuotedBackslash, now, rest);
    } else {
      assert "" + rest == rest;
      Stops(Quotes, InQuotes, now, rest);
    }
  }

  lemma EndingRead(kind: LexType, e: Ending, text: string, rest: string)
    requires GoodEnding(kind, e) && Ends(e, rest)
    ensures Scan(kind, InWord, text, EndingText(e) + rest) == Token(text + EndingMeaning(e), rest)
  {
    assert text + "" == text;
    match e
    case Whole =>
      assert "" + rest == rest;
      Stops(kind, InWord, text, rest);
    case Dangling =>
      Taken(kind, InWord, text, '\\', rest, AfterBackslash, "");
      Stops(kind, AfterBackslash, text, rest);
    case Unclosed(inner, dangling) =>
      var tail := if dangling then "\\" else "";
      UnclosedSplit(inner, tail, rest);
      Taken(kind, InWord, text, '"', InnerText(inner) + (tail + rest), InQuotes, "");
      UnclosedRead(inner, dangling, text, rest);
  }

  lemma UnclosedSplit(inner: seq<QuotedPiece>, tail: string, rest: string)
    ensures "\"" + InnerText(inner) + tail + rest == ['"'] + (InnerText(inner) + (tail + rest))
  {
  }

  lemma Regrouped(a: string, b: string, c: string)
    ensures a + b + c == a + (b + c)
  {
  }

  /** Does the text of the word start it? It does unless there is nothing of it. */
  predicate StartsWord(s: string) {
    s != "" && !IsSpace(s[0])
  }

  /** Blanks, a word and its ending: the token is what they mean, and the rest is what follows. */
  lemma TokenRead(kind: LexType, gap: string, word: seq<Piece>, e: Ending, rest: string)
    requires BlankText(gap) && GoodWord(kind, word) && GoodEnding(kind, e) && Ends(e, rest)
    requires word != [] || e != Whole
    ensures Scan(kind, SkipSpaces, "", gap + WordText(word) + EndingText(e) + rest)
            == Token(Meaning(word) + EndingMeaning(e), rest)
  {
    var line := WordText(word) + (EndingText(e) + rest);
    Regrouped(gap, WordText(word), EndingText(e));
    Regrouped(gap, WordText(word) + EndingText(e), rest);
    Regrouped(WordText(word), EndingText(e), rest);
    BlanksSkipped(kind, gap, "", line);
    FirstCharacter(kind, word, e, rest);
    WordStarts(kind, line);
    WordRead(kind, word, "", EndingText(e) + rest);
    assert "" + Meaning(word) == Meaning(word);
    EndingRead(kind, e, Meaning(word), rest);
  }

  lemma WordStarts(kind: LexType, line: string)
    requires StartsWord(line)
    ensures Scan(kind, SkipSpaces, "", line) == Scan(kind, InWord, "", line)
  {
    assert "" + "" == "";
  }

  lemma FirstCharacter(kind: LexType, word: seq<Piece>, e: Ending, rest: string)
    requires GoodWord(kind, word) && GoodEnding(kind, e) && (word != [] || e != Whole)
    ensures StartsWord(WordText(word) + (EndingText(e) + rest))
  {
    if word != [] {
      assert GoodPiece(kind, word[0]);
      assert (WordText(word) + (EndingText(e) + rest))[0] == PieceText(word[0])[0];
    } else {
      assert (WordText(word) + (EndingText(e) + rest))[0] == EndingText(e)[0];
    }
  }

  // ---------------------------------------------------------------- a whole line

  datatype Item = Item(gap: string, word: seq<Piece>)

  /** Words with blanks between them. */
  predicate GoodItems(kind: LexType, items: seq<Item>) {
    forall i | 0 <= i < |items| ::
      BlankText(items[i].gap) && (i > 0 ==> items[i].gap != "") && GoodWord(kind, items[i].word) && items[i].word != []
  }

  function LineText(items: seq<Item>): string {
    if items == [] then "" else items[0].gap + WordText(items[0].word) + LineText(items[1..])
  }

  function Meanings(items: seq<Item>): (ms: seq<string>)
    ensures |ms| == |items| && forall i | 0 <= i < |ms| :: ms[i] == Meaning(items[i].word)
  {
    seq(|items|, i requires 0 <= i < |items| => Meaning(items[i].word))
  }

  /** Behind the last word: blanks, and then the end of the input or a line end. */
  predicate LineTail(tail: string) {
    tail == "" || IsNewline(tail[0]) || (IsSpace(tail[0]) && LineTail(tail[1..]))
  }

  lemma {:induction false} TailIsEmpty(kind: LexType, tail: string)
    requires LineTail(tail)
    ensures Tokens(kind, tail) == []
    decreases |tail|
  {
    if tail != "" && !IsNewline(tail[0]) {
      TailIsEmpty(kind, tail[1..]);
      Taken(kind, SkipSpaces, "", tail[0], tail[1..], SkipSpaces, "");
      assert [tail[0]] + tail[1..] == tail && "" + "" == "";
    }
  }

  /** What follows a word of the line ends it. */
  lemma NextEnds(kind: LexType, items: seq<Item>, tail: string)
    requires items != [] && GoodItems(kind, items) && LineTail(tail)
    ensures Ends(Whole, LineText(items[1..]) + tail)
  {
    if |items| > 1 {
      var gap := items[1].gap;
      assert items[1..][0] == items[1];
      assert (LineText(items[1..]) + tail)[0] == gap[0];
    } else {
      assert LineText(items[1..]) + tail == tail;
    }
  }

  /** A line of words reads as what the words mean, up to the first that means nothing. */
  lemma {:induction false} LineRead(kind: LexType, items: seq<Item>, tail: string)
    requires GoodItems(kind, items) && LineTail(tail)
    ensures Tokens(kind, LineText(items) + tail) == BeforeEmpty(Meanings(items))
    decreases |items|
  {
    if items == [] {
      assert LineText(items) + tail == tail;
      TailIsEmpty(kind, tail);
    } else {
      OneItemRead(kind, items, tail);
      LineRead(kind, items[1..], tail);
      assert Meanings(items)[1..] == Meanings(items[1..]);
    }
  }

  lemma OneItemRead(kind: LexType, items: seq<Item>, tail: string)
    requires items != [] && GoodItems(kind, items) && LineTail(tail)
    ensures var m := Meaning(items[0].word);
            Tokens(kind, LineText(items) + tail) == if m == "" then [] else [m] + Tokens(kind, LineText(items[1..]) + tail)
  {
    var item, rest := items[0], LineText(items[1..]) + tail;
    NextEnds(kind, items, tail);
    TokenRead(kind, item.gap, item.word, Whole, rest);
    LineRegrouped(item, LineText(items[1..]), tail);
    FirstToken(kind, LineText(items) + tail, Meaning(item.word), rest);
  }

  lemma FirstToken(kind: LexType, line: string, text: string, rest: string)
    requires Scan(kind, SkipSpaces, "", line) == Token(text, rest)
    ensures Tokens(kind, line) == if text == "" then [] else [text] + Tokens(kind, rest)
  {
  }

  lemma LineRegrouped(item: Item, more: string, tail: string)
    ensures item.gap + WordText(item.word) + more + tail == item.gap + WordText(item.word) + EndingText(Whole) + (more + tail)
    ensures Meaning(item.word) + EndingMeaning(Whole) == Meaning(item.word)
  {
  }

  // ---------------------------------------------------------------- ordinary words

  /** A word without anything special in it. */
  predicate PlainWord(kind: LexType, w: string) {
    w != "" && forall i | 0 <= i < |w| :: GoodPiece(kind, Bare(w[i]))
  }

  function Bares(w: string): (word: seq<Piece>)
    ensures |word| == |w| && forall i | 0 <= i < |w| :: word[i] == Bare(w[i])
  {
    seq(|w|, i requires 0 <= i < |w| => Bare(w[i]))
  }

  lemma {:induction false} BaresMean(w: string)
    ensures WordText(Bares(w)) == w && Meaning(Bares(w)) == w
    decreases |w|
  {
    if w != "" {
      assert Bares(w)[1..] == Bares(w[1..]);
      BaresMean(w[1..]);
      assert [w[0]] + w[1..] == w;
    }
  }

  /** Words with a gap in front of each. */
  function Spread(ws: seq<string>, gaps: seq<string>): string
    requires |gaps| == |ws|
  {
    if ws == [] then "" else gaps[0] + ws[0] + Spread(ws[1..], gaps[1..])
  }

  function PlainItems(ws: seq<string>, gaps: seq<string>): (items: seq<Item>)
    requires |gaps| == |ws|
    ensures |items| == |ws| && forall i | 0 <= i < |ws| :: items[i] == Item(gaps[i], Bares(ws[i]))
  {
    seq(|ws|, i requires 0 <= i < |ws| => Item(gaps[i], Bares(ws[i])))
  }

  lemma {:induction false} PlainItemsText(ws: seq<string>, gaps: seq<string>)
    requires |gaps| == |ws|
    ensures LineText(PlainItems(ws, gaps)) == Spread(ws, gaps)
    decreases |ws|
  {
    if ws != [] {
      assert PlainItems(ws, gaps)[1..] == PlainItems(ws[1..], gaps[1..]);
      PlainItemsText(ws[1..], gaps[1..]);
      BaresMean(ws[0]);
    }
  }

  /** Words without special characters, blanks between them and anywhere around: the tokens are
      the words. */
  lemma {:induction false} WordsRead(kind: LexType, ws: seq<string>, gaps: seq<string>, tail: string)
    requires |gaps| == |ws| && (forall i | 0 <= i < |ws| :: PlainWord(kind, ws[i]))
    requires forall i | 0 <= i < |gaps| :: BlankText(gaps[i]) && (i > 0 ==> gaps[i] != "")
    requires LineTail(tail)
    ensures Tokens(kind, Spread(ws, gaps) + tail) == ws
  {
    var items := PlainItems(ws, gaps);
    forall i | 0 <= i < |ws| ensures Meanings(items)[i] == ws[i] && GoodWord(kind, items[i].word) {
      BaresMean(ws[i]);
    }
    PlainItemsText(ws, gaps);
    LineRead(kind, items, tail);
    assert Meanings(items) == ws;
    AllKept(ws);
  }

  lemma AllKept(ws: seq<string>)
    requires forall i | 0 <= i < |ws| :: ws[i] != ""
    ensures BeforeEmpty(ws) == ws
  {
    assert "" !in ws;
  }

  // ---------------------------------------------------------------- every line is of this form

  /** Up to the end of a quoted part, if there is one. */
  lemma {:induction false} InnerSplit(input: string) returns (inner: seq<QuotedPiece>, closed: bool, dangling: bool, rest: string)
    ensures GoodInner(inner) && (closed ==> !dangling)
    ensures input == InnerText(inner) + ((if closed then "\"" else if dangling then "\\" else "") + rest)
    ensures !closed ==> rest == "" || IsNewline(rest[0])
    decreases |input|
  {
    if input == "" || IsNewline(input[0]) {
      return [], false, false, input;
    }
    var ch, tail := input[0], input[1..];
    assert input == [ch] + tail;
    if ch == '"' {
      return [], true, false, tail;
    }
    if ch == '\\' && (tail == "" || IsNewline(tail[0])) {
      return [], false, true, tail;
    }
    var q := if ch != '\\' then Inside(ch) else if tail[0] == '"' || tail[0] == '\\' then InsideEscaped(tail[0]) else InsideKept(tail[0]);
    var behind := if ch == '\\' then tail[1..] else tail;
    assert input == InsideText(q) + behind;
    var more;
    more, closed, dangling, rest := InnerSplit(behind);
    inner := [q] + more;
    assert inner[1..] == more;
    Regrouped(InsideText(q), InnerText(more), (if closed then "\"" else if dangling then "\\" else "") + rest);
  }

  /** The first piece of a word, or how it ends without one. */
  lemma PieceSplit(kind: LexType, input: string) returns (p: Piece, e: Option<Ending>, rest: string)
    requires input != "" && !IsSpace(input[0])
    ensures e == None ==> GoodPiece(kind, p) && input == PieceText(p) + rest && |rest| < |input|
    ensures e != None ==> GoodEnding(kind, e.value) && Ends(e.value, rest) && input == EndingText(e.value) + rest
  {
    var ch, tail := input[0], input[1..];
    p, e, rest := Bare(ch), None, tail;
    assert input == [ch] + tail;
    if ch == '\\' && kind != Plain {
      if tail == "" || IsNewline(tail[0]) {
        e := Some(Dangling);
      } else {
        p, rest := Escape(tail[0]), tail[1..];
      }
    } else if ch == '"' && kind == Quotes {
      p, e, rest := PartSplit(tail);
    }
  }

  lemma PartSplit(tail: string) returns (p: Piece, e: Option<Ending>, rest: string)
    ensures e == None ==> GoodPiece(Quotes, p) && "\"" + tail == PieceText(p) + rest && |rest| <= |tail|
    ensures e != None ==> GoodEnding(Quotes, e.value) && Ends(e.value, rest) && "\"" + tail == EndingText(e.value) + rest
  {
    var inner, closed, dangling;
    inner, closed, dangling, rest := InnerSplit(tail);
    p, e := Part(inner), None;
    if closed {
      Regrouped("\"" + InnerText(inner), "\"", rest);
      Regrouped("\"", InnerText(inner), "\"" + rest);
    } else {
      var end := if dangling then "\\" else "";
      e := Some(Unclosed(inner, dangling));
      Regrouped("\"" + InnerText(inner), end, rest);
      Regrouped("\"", InnerText(inner), end + rest);
    }
  }

  /** The pieces of a word, and its ending. */
  lemma {:induction false} WordSplit(kind: LexType, input: string) returns (word: seq<Piece>, e: Ending, rest: string)
    ensures GoodWord(kind, word) && GoodEnding(kind, e) && Ends(e, rest)
    ensures input == WordText(word) + (EndingText(e) + rest)
    decreases |input|
  {
    if input == "" || IsSpace(input[0]) {
      return [], Whole, input;
    }
    var p, end, behind := PieceSplit(kind, input);
    if end != None {
      assert input == "" + (EndingText(end.value) + behind);
      return [], end.value, behind;
    }
    var more;
    more, e, rest := WordSplit(kind, behind);
    word := [p] + more;
    assert word[1..] == more;
    Regrouped(PieceText(p), WordText(more), EndingText(e) + rest);
  }

  lemma {:induction false} BlankSplit(input: string) returns (gap: string, rest: string)
    ensures BlankText(gap) && input == gap + rest
    ensures rest == "" || IsNewline(rest[0]) || !IsSpace(rest[0])
    decreases |input|
  {
    if input == "" || IsNewline(input[0]) || !IsSpace(input[0]) {
      return "", input;
    }
    gap, rest := BlankSplit(input[1..]);
    gap := [input[0]] + gap;
  }

  /** Any line at all: blanks, a word and its ending, and the token is what they mean; or nothing
      but blanks, and the token is empty. */
  lemma EveryTokenRead(kind: LexType, input: string) returns (gap: string, word: seq<Piece>, e: Ending, rest: string)
    ensures BlankText(gap) && GoodWord(kind, word) && GoodEnding(kind, e) && Ends(e, rest)
    ensures input == gap + WordText(word) + EndingText(e) + rest
    ensures Scan(kind, SkipSpaces, "", input) == Token(Meaning(word) + EndingMeaning(e), rest)
    ensures word == [] && e == Whole ==> rest == "" || IsNewline(rest[0])
  {
    var line;
    gap, line := BlankSplit(input);
    word, e, rest := WordSplit(kind, line);
    Regrouped(gap, WordText(word), EndingText(e));
    Regrouped(gap, WordText(word) + EndingText(e), rest);
    Regrouped(WordText(word), EndingText(e), rest);
    if word == [] && e == Whole {
      assert line == rest;
      BlanksSkipped(kind, gap, "", rest);
      Stops(kind, SkipSpaces, "", rest);
    } else {
      TokenRead(kind, gap, word, e, rest);
    }
  }
}
