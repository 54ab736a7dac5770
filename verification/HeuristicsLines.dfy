/**
  The heuristics pipes as text: every request and every result is one line, however the pipe
  cuts the text into reads, and is parsed back by the other end.
*/
module HeuristicsLines {
  import opened Tlv
  import opened Chars

  /** An entry of the exec list. */
  datatype Command = Command(name: string, line: string)

  // ---------------------------------------------------------------- lines out of a buffer

  /** The position of the first line end, or the length. */
  function LineEnd(buf: string): (n: nat)
    ensures n <= |buf| && (forall i | 0 <= i < n :: !IsNewline(buf[i])) && (n < |buf| ==> IsNewline(buf[n]))
  {
    if buf == "" || IsNewline(buf[0]) then 0 else 1 + LineEnd(buf[1..])
  }

  /** What follows a line: line ends and terminators are passed over. */
  function SkipEnds(buf: string): (r: string)
    ensures |r| <= |buf|
  {
    if buf == "" || !(IsNewline(buf[0]) || buf[0] == '\0') then buf else SkipEnds(buf[1..])
  }

  /** All complete lines of the buffer, and what is left for the next read. */
  function Lines(buf: string): (seq<string>, string)
    decreases |buf|
  {
    var n := LineEnd(buf);
    if n == |buf| then ([], buf)
    else
      var (ls, rest) := Lines(SkipEnds(buf[n + 1..]));
      ([buf[..n]] + ls, rest)
  }

  predicate GoodLine(l: string) {
    l != "" && l[0] != '\0' && forall i | 0 <= i < |l| :: !IsNewline(l[i])
  }

  function Joined(ls: seq<string>): string {
    if ls == [] then "" else ls[0] + "\n" + Joined(ls[1..])
  }

  lemma {:induction false} LineEndAt(l: string, rest: string)
    requires forall i | 0 <= i < |l| :: !IsNewline(l[i])
    ensures LineEnd(l + "\n" + rest) == |l|
  {
    var buf := l + "\n" + rest;
    var n := LineEnd(buf);
    assert buf[|l|] == '\n';
    forall i | 0 <= i < |l| ensures !IsNewline(buf[i]) {
      assert buf[i] == l[i];
    }
  }

  /** One line at the front of the buffer. */
  lemma FirstLine(l: string, rest: string)
    requires GoodLine(l) && (rest == "" || !(IsNewline(rest[0]) || rest[0] == '\0'))
    ensures Lines(l + "\n" + rest) == ([l] + Lines(rest).0, Lines(rest).1)
  {
    var buf := l + "\n" + rest;
    LineEndAt(l, rest);
    assert buf[..|l|] == l && buf[|l| + 1..] == rest;
    assert SkipEnds(rest) == rest;
  }

  /** The text of good lines starts a line at once. */
  lemma TextStarts(ls: seq<string>, partial: string)
    requires ls != [] ==> GoodLine(ls[0])
    requires partial == "" || GoodLine(partial)
    ensures var text := Joined(ls) + partial; text == "" || !(IsNewline(text[0]) || text[0] == '\0')
  {
    if ls != [] {
      assert (Joined(ls) + partial)[0] == ls[0][0];
    } else {
      assert Joined(ls) + partial == partial;
    }
  }

  lemma JoinedFront(ls: seq<string>, partial: string)
    requires ls != []
    ensures Joined(ls) + partial == ls[0] + "\n" + (Joined(ls[1..]) + partial)
  {
  }

  lemma NoLine(partial: string)
    requires partial == "" || GoodLine(partial)
    ensures Lines(partial) == ([], partial)
  {
    assert LineEnd(partial) == |partial|;
  }

  lemma FirstLineOf(l: string, text: string, ls: seq<string>, partial: string)
    requires GoodLine(l) && (text == "" || !(IsNewline(text[0]) || text[0] == '\0'))
    requires Lines(text) == (ls, partial)
    ensures Lines(l + "\n" + text) == ([l] + ls, partial)
  {
    FirstLine(l, text);
  }

  predicate GoodText(ls: seq<string>, partial: string) {
    (forall i | 0 <= i < |ls| :: GoodLine(ls[i])) && (partial == "" || GoodLine(partial))
  }

  /** The worker reads back exactly the lines that were written, and keeps an incomplete one. */
  lemma {:induction false} LinesRoundTrip(ls: seq<string>, partial: string)
    requires GoodText(ls, partial)
    ensures Lines(Joined(ls) + partial) == (ls, partial)
  {
    if ls == [] {
      NoLine(partial);
      assert Joined(ls) + partial == partial;
    } else {
      LinesRoundTrip(ls[1..], partial);
      OneMoreLine(ls, partial, Joined(ls[1..]) + partial);
    }
  }

  lemma OneMoreLine(ls: seq<string>, partial: string, text: string)
    requires ls != [] && GoodText(ls, partial) && text == Joined(ls[1..]) + partial && Lines(text) == (ls[1..], partial)
    ensures Lines(Joined(ls) + partial) == (ls, partial)
  {
    TextStarts(ls[1..], partial);
    JoinedFront(ls, partial);
    HeadOfLines(ls);
    FirstLineOf(ls[0], text, ls[1..], partial);
  }

  lemma HeadOfLines(ls: seq<string>)
    requires ls != []
    ensures ls == [ls[0]] + ls[1..]
  {
  }

  function Concat(chunks: seq<string>): string {
    if chunks == [] then "" else chunks[0] + Concat(chunks[1..])
  }

  /** All lines of a text that arrives in these chunks behind what is left in the buffer. */
  function ReadAll(buf: string, chunks: seq<string>): (seq<string>, string)
    decreases |chunks|
  {
    if chunks == [] then ([], buf)
    else
      var (ls, rest) := Lines(buf + chunks[0]);
      var (more, last) := ReadAll(rest, chunks[1..]);
      (ls + more, last)
  }

  lemma PartOfLine(l: string, p: string)
    requires (l == "" || GoodLine(l)) && p <= l
    ensures p == "" || GoodLine(p)
  {
  }

  lemma CutInFirst(l: string, text: string, p: string, rest: string)
    requires p + rest == l + "\n" + text && |p| <= |l|
    ensures p <= l
  {
    assert p == (p + rest)[..|p|] == (l + "\n" + text)[..|p|] == l[..|p|];
  }

  lemma CutBehindFirst(l: string, text: string, p: string, rest: string) returns (q: string)
    requires p + rest == l + "\n" + text && |p| > |l|
    ensures p == l + "\n" + q && q + rest == text
  {
    var n := |l| + 1;
    q := p[n..];
    assert p[..n] == (p + rest)[..n] == (l + "\n" + text)[..n] == l + "\n";
    assert q + rest == (p + rest)[n..] == (l + "\n" + text)[n..] == text;
  }

  /** A first line in front of a part of the lines behind it. */
  lemma CutBehindMore(l: string, tail: seq<string>, partial: string, q: string, rest: string, j: nat)
    requires GoodLine(l) && GoodText(tail, partial) && q + rest == Joined(tail) + partial
    requires j <= |tail| && Lines(q).0 == tail[..j]
    ensures Lines(l + "\n" + q) == ([l] + tail[..j], Lines(q).1)
  {
    TextStarts(tail, partial);
    SameStart(q, rest, Joined(tail) + partial);
    FirstLineOf(l, q, tail[..j], Lines(q).1);
  }

  /** A text cut at any place: some whole lines and the beginning of the next one. */
  lemma {:induction false} CutText(ls: seq<string>, partial: string, p: string, rest: string) returns (k: nat)
    requires GoodText(ls, partial) && p + rest == Joined(ls) + partial
    ensures k <= |ls| && Lines(p).0 == ls[..k]
    ensures Lines(p).1 + rest == Joined(ls[k..]) + partial
    ensures Lines(p).1 == "" || GoodLine(Lines(p).1)
    decreases |ls|
  {
    if ls == [] || |p| <= |ls[0]| {
      CutEarly(ls, partial, p, rest);
      return 0;
    }
    var l, tail := ls[0], ls[1..];
    JoinedFront(ls, partial);
    var q := CutBehindFirst(l, Joined(tail) + partial, p, rest);
    var j := CutText(tail, partial, q, rest);
    CutBehindMore(l, tail, partial, q, rest, j);
    k := j + 1;
    LinesUpTo(ls, j);
  }

  lemma LinesUpTo(ls: seq<string>, j: nat)
    requires ls != [] && j <= |ls| - 1
    ensures ls[..j + 1] == [ls[0]] + ls[1..][..j] && ls[j + 1..] == ls[1..][j..]
  {
  }

  /** A cut within the first line, or within the incomplete one when there is no other. */
  lemma CutEarly(ls: seq<string>, partial: string, p: string, rest: string)
    requires GoodText(ls, partial) && p + rest == Joined(ls) + partial && (ls == [] || |p| <= |ls[0]|)
    ensures Lines(p) == ([], p) && (p == "" || GoodLine(p)) && ls[..0] == [] && ls[0..] == ls
  {
    if ls == [] {
      assert Joined(ls) + partial == partial && partial[..|p|] == p;
      PartOfLine(partial, p);
    } else {
      JoinedFront(ls, partial);
      CutInFirst(ls[0], Joined(ls[1..]) + partial, p, rest);
      PartOfLine(ls[0], p);
    }
    NoLine(p);
  }

  lemma SameStart(q: string, rest: string, text: string)
    requires q + rest == text && (text == "" || !(IsNewline(text[0]) || text[0] == '\0'))
    ensures q == "" || !(IsNewline(q[0]) || q[0] == '\0')
  {
  }

  /** However the pipe cuts the text into reads, the lines read are the lines written. */
  lemma {:induction false} LinesAcrossReads(ls: seq<string>, partial: string, buf: string, chunks: seq<string>)
    requires GoodText(ls, partial) && (buf == "" || GoodLine(buf))
    requires buf + Concat(chunks) == Joined(ls) + partial
    ensures ReadAll(buf, chunks) == (ls, partial)
    decreases |chunks|
  {
    if chunks == [] {
      assert buf + Concat(chunks) == buf;
      NoLine(buf);
      LinesRoundTrip(ls, partial);
    } else {
      var p, rest := buf + chunks[0], Concat(chunks[1..]);
      assert p + rest == buf + Concat(chunks);
      var k := CutText(ls, partial, p, rest);
      LinesAcrossReads(ls[k..], partial, Lines(p).1, chunks[1..]);
      assert ls[..k] + ls[k..] == ls;
    }
  }

  // ---------------------------------------------------------------- an exec list entry

  function RemoveNewlines(s: string): (r: string)
    ensures |r| == |s| && forall i | 0 <= i < |s| :: r[i] == if IsNewline(s[i]) then ' ' else s[i]
  {
    seq(|s|, i requires 0 <= i < |s| => if IsNewline(s[i]) then ' ' else s[i])
  }

  function AddLine(keyword: string, name: string, line: string): string {
    RemoveNewlines(keyword + " " + name + " " + line)
  }

  /** The length of the leading part without spaces, and of the leading spaces. */
  function WordLength(s: string): (n: nat)
    ensures n <= |s| && (forall i | 0 <= i < n :: s[i] != ' ') && (n < |s| ==> s[n] == ' ')
  {
    if |s| == 0 || s[0] == ' ' then 0 else 1 + WordLength(s[1..])
  }

  function SpacesLength(s: string): (n: nat)
    ensures n <= |s| && (forall i | 0 <= i < n :: s[i] == ' ') && (n < |s| ==> s[n] != ' ')
  {
    if |s| == 0 || s[0] != ' ' then 0 else 1 + SpacesLength(s[1..])
  }

  function DropWord(s: string): string {
    s[WordLength(s)..]
  }

  function DropSpaces(s: string): string {
    s[SpacesLength(s)..]
  }

  /** Read the name, pass the spaces; the rest is the command. */
  function ParseEntry(b: string): Option<Command> {
    if |b| == 0 || |DropWord(b)| == 0 then None
    else
      var d := DropSpaces(DropWord(b)[1..]);
      if |d| == 0 then None else Some(Command(b[..WordLength(b)], d))
  }

  /** Pass the keyword and the spaces behind it. */
  function ParseAdd(s: string): Option<Command> {
    ParseEntry(DropSpaces(DropWord(s)))
  }

  lemma WordLengthIs(w: string, rest: string)
    requires ' ' !in w && (rest == "" || rest[0] == ' ')
    ensures WordLength(w + rest) == |w|
  {
    var s := w + rest;
    var n := WordLength(s);
    assert rest != "" ==> s[|w|] == ' ';
    forall i | 0 <= i < |w| ensures s[i] != ' ' {
      assert s[i] == w[i] && w[i] in w;
    }
  }

  lemma OneSpace(rest: string)
    requires rest != "" && rest[0] != ' '
    ensures SpacesLength(" " + rest) == 1
  {
    assert (" " + rest)[1] == rest[0];
  }

  /** May an entry be sent as a line? */
  predicate Sendable(name: string, line: string) {
    && name != "" && ' ' !in name && line != "" && line[0] != ' '
    && forall ch | ch in name + line :: !IsNewline(ch)
  }

  lemma KeywordPassed(keyword: string, b: string)
    requires ' ' !in keyword && b != "" && b[0] != ' '
    ensures ParseAdd(keyword + (" " + b)) == ParseEntry(b)
  {
    var a := " " + b;
    WordLengthIs(keyword, a);
    assert DropWord(keyword + a) == a;
    OneSpace(b);
    assert DropSpaces(a) == b;
  }

  lemma EntryParsed(name: string, line: string)
    requires name != "" && ' ' !in name && line != "" && line[0] != ' '
    ensures ParseEntry(name + (" " + line)) == Some(Command(name, line))
  {
    var b := name + (" " + line);
    WordLengthIs(name, " " + line);
    assert DropWord(b) == " " + line && (" " + line)[1..] == line;
    assert DropSpaces(line) == line && b[..|name|] == name;
  }

  lemma SameText(keyword: string, name: string, line: string)
    ensures keyword + " " + name + " " + line == keyword + (" " + (name + (" " + line)))
  {
  }

  lemma Parsed(s: string, keyword: string, b: string, c: Command)
    requires ' ' !in keyword && b != "" && b[0] != ' ' && s == keyword + (" " + b) && ParseEntry(b) == Some(c)
    ensures ParseAdd(s) == Some(c)
  {
    KeywordPassed(keyword, b);
  }

  lemma SendableArrives(keyword: string, name: string, line: string, s: string)
    requires ' ' !in keyword && (forall ch | ch in keyword :: !IsNewline(ch)) && Sendable(name, line)
    requires s == AddLine(keyword, name, line)
    ensures ParseAdd(s) == Some(Command(name, line))
  {
    SentUnchanged(keyword, name, line);
    SameText(keyword, name, line);
    assert name[0] in name;
    EntryParsed(name, line);
    Parsed(s, keyword, name + (" " + line), Command(name, line));
  }

  /** What the parser returns is a word and a command out of the line. */
  lemma ParsedParts(s: string, c: Command)
    requires ParseAdd(s) == Some(c)
    ensures c.name != "" && ' ' !in c.name && c.line != "" && c.line[0] != ' '
    ensures forall ch | ch in c.name + c.line :: ch in s
  {
  }

  lemma ParsedIsSendable(keyword: string, name: string, line: string)
    requires ParseAdd(AddLine(keyword, name, line)) == Some(Command(name, line))
    ensures Sendable(name, line)
  {
    ParsedParts(AddLine(keyword, name, line), Command(name, line));
    NothingElse(AddLine(keyword, name, line), name + line);
  }

  lemma NothingElse(s: string, part: string)
    requires forall i | 0 <= i < |s| :: !IsNewline(s[i])
    requires forall ch | ch in part :: ch in s
    ensures forall ch | ch in part :: !IsNewline(ch)
  {
  }

  /** The worker gets the entry the main process has, exactly when its name is one word, its
      command is there and does not start with a space, and neither contains a line end. */
  lemma EntryRoundTrip(keyword: string, name: string, line: string)
    requires ' ' !in keyword && forall ch | ch in keyword :: !IsNewline(ch)
    ensures ParseAdd(AddLine(keyword, name, line)) == Some(Command(name, line)) <==> Sendable(name, line)
  {
    if Sendable(name, line) {
      SendableArrives(keyword, name, line, AddLine(keyword, name, line));
    }
    if ParseAdd(AddLine(keyword, name, line)) == Some(Command(name, line)) {
      ParsedIsSendable(keyword, name, line);
    }
  }

  lemma SentUnchanged(keyword: string, name: string, line: string)
    requires Sendable(name, line) && forall ch | ch in keyword :: !IsNewline(ch)
    ensures AddLine(keyword, name, line) == keyword + " " + name + " " + line
  {
    var s := keyword + " " + name + " " + line;
    forall i | 0 <= i < |s| ensures !IsNewline(s[i]) {
      var k := |keyword| + 1;
      if i < |keyword| {
        assert s[i] == keyword[i];
      } else if k <= i < k + |name| {
        assert s[i] == name[i - k] && s[i] in name + line;
      } else if i > k + |name| {
        assert s[i] == line[i - k - |name| - 1] && s[i] in name + line;
      }
    }
  }

  /** The index loops of the worker, up to the name. */
  method ProcessExecListAdd(s: string) returns (r: Option<Command>)
    ensures r == ParseAdd(s)
  {
    assert s[0..] == s;
    var zi := SkipWhile(s, 0, false);
    zi := SkipWhile(s, zi, true);
    r := ReadEntry(s, zi);
  }

  /** The name and the command that start at `start`. */
  method ReadEntry(s: string, start: nat) returns (r: Option<Command>)
    requires start <= |s|
    ensures r == ParseEntry(s[start..])
  {
    if start == |s| {
      return None;
    }
    var zi := SkipWhile(s, start, false);
    if zi == |s| {
      return None;
    }
    var name := s[start..zi];
    assert name == s[start..][..WordLength(s[start..])] && s[zi..][1..] == s[zi + 1..];
    zi := SkipWhile(s, zi + 1, true);
    if zi == |s| {
      return None;
    }
    return Some(Command(name, s[zi..]));
  }

  lemma RunEndsAt(s: string, n: nat, spaces: bool)
    requires n <= |s| && (forall k | 0 <= k < n :: (s[k] == ' ') == spaces)
    requires n < |s| ==> (s[n] == ' ') != spaces
    ensures n == if spaces then SpacesLength(s) else WordLength(s)
  {
  }

  /** Pass over spaces, or over everything else. */
  method SkipWhile(s: string, from: nat, spaces: bool) returns (zi: nat)
    requires from <= |s|
    ensures from <= zi <= |s| && zi == from + if spaces then SpacesLength(s[from..]) else WordLength(s[from..])
    ensures s[zi..] == if spaces then DropSpaces(s[from..]) else DropWord(s[from..])
  {
    zi := from;
    while zi < |s| && (s[zi] == ' ') == spaces
      invariant from <= zi <= |s| && forall k | from <= k < zi :: (s[k] == ' ') == spaces
    {
      zi := zi + 1;
    }
    RunEndsAt(s[from..], zi - from, spaces);
  }

  // ---------------------------------------------------------------- numbers

  function Digit(d: nat): (ch: char)
    requires d < 10
    ensures IsDigit(ch) && DigitValue(ch) == d
  {
    ('0' as int + d) as char
  }

  function DigitValue(ch: char): nat
    requires IsDigit(ch)
  {
    ch as int - '0' as int
  }

  function Decimal(n: nat): (s: string)
    ensures s != "" && forall ch | ch in s :: IsDigit(ch)
  {
    if n < 10 then [Digit(n)] else Decimal(n / 10) + [Digit(n % 10)]
  }

  /** The length of the leading digits, and of the leading white space. */
  function DigitsLength(s: string): (n: nat)
    ensures n <= |s| && (forall i | 0 <= i < n :: IsDigit(s[i])) && (n < |s| ==> !IsDigit(s[n]))
  {
    if s == "" || !IsDigit(s[0]) then 0 else 1 + DigitsLength(s[1..])
  }

  function BlankLength(s: string): (n: nat)
    ensures n <= |s| && (forall i | 0 <= i < n :: IsSpace(s[i])) && (n < |s| ==> !IsSpace(s[n]))
  {
    if s == "" || !IsSpace(s[0]) then 0 else 1 + BlankLength(s[1..])
  }

  function ValueOf(s: string): nat
    requires forall i | 0 <= i < |s| :: IsDigit(s[i])
  {
    if s == "" then 0 else 10 * ValueOf(s[..|s| - 1]) + DigitValue(s[|s| - 1])
  }

  datatype Number = Number(value: nat, rest: string)

  /** White space and a decimal number, as sscanf reads it. */
  function ReadNumber(s: string): Option<Number> {
    var t := s[BlankLength(s)..];
    var n := DigitsLength(t);
    if n == 0 then None else Some(Number(ValueOf(t[..n]), t[n..]))
  }

  function ReadTwo(s: string): Option<(nat, nat)> {
    match ReadNumber(s)
    case None => None
    case Some(first) =>
      match ReadNumber(first.rest)
      case None => None
      case Some(second) => Some((first.value, second.value))
  }

  lemma {:induction false} DecimalValue(n: nat)
    ensures ValueOf(Decimal(n)) == n
  {
    if n >= 10 {
      DecimalValue(n / 10);
      assert Decimal(n)[..|Decimal(n)| - 1] == Decimal(n / 10);
    } else {
      assert Decimal(n)[..0] == "";
    }
  }

  lemma DigitsEnd(ds: string, rest: string)
    requires (forall ch | ch in ds :: IsDigit(ch)) && (rest == "" || !IsDigit(rest[0]))
    ensures DigitsLength(ds + rest) == |ds|
  {
    var s := ds + rest;
    var n := DigitsLength(s);
    assert rest != "" ==> s[|ds|] == rest[0];
    forall i | 0 <= i < |ds| ensures IsDigit(s[i]) {
      assert s[i] == ds[i];
    }
  }

  lemma BlankPassed(s: string)
    requires s != "" && !IsSpace(s[0])
    ensures BlankLength(" " + s) == 1 && (" " + s)[1..] == s
  {
    assert (" " + s)[1] == s[0];
  }

  lemma NumberRead(n: nat, rest: string)
    requires rest == "" || !IsDigit(rest[0])
    ensures ReadNumber(" " + (Decimal(n) + rest)) == Some(Number(n, rest))
  {
    var ds := Decimal(n);
    var s := ds + rest;
    assert s[0] == ds[0] && ds[0] in ds;
    BlankPassed(s);
    DigitsEnd(ds, rest);
    assert s[..|ds|] == ds && s[|ds|..] == rest;
    DecimalValue(n);
  }

  function TwoNumbers(m: nat, n: nat): string {
    " " + (Decimal(m) + (" " + (Decimal(n) + "")))
  }

  lemma TwoRead(m: nat, n: nat)
    ensures ReadTwo(TwoNumbers(m, n)) == Some((m, n))
  {
    NumberRead(n, "");
    NumberRead(m, " " + (Decimal(n) + ""));
  }

  // ---------------------------------------------------------------- requests

  const CLEAR := "exec-list-clear"
  const ADD := "exec-list-add"
  const EXEC := "exec"
  const RESULT := "exec-result"

  function AddText(c: Command): string {
    AddLine(ADD, c.name, c.line)
  }

  function ExecText(timeout: nat, seqNo: nat): string {
    EXEC + TwoNumbers(timeout, seqNo)
  }

  /** A line as the worker understands it. */
  datatype Line = ListClear | ListAdd(command: Command) | Exec(timeout: nat, seqNo: nat) | Malformed

  /** The prefix test for an added entry does not include the space. */
  function ParseLine(s: string): Line {
    if s == CLEAR then ListClear
    else if ADD <= s then
      (match ParseAdd(s) case None => Malformed case Some(c) => ListAdd(c))
    else if EXEC + " " <= s then
      (match ReadTwo(s[|EXEC|..]) case None => Malformed case Some((timeout, seqNo)) => Exec(timeout, seqNo))
    else Malformed
  }

  /** The entry the worker gets for an entry that is sent; None when it cannot parse the line. */
  function Arrives(c: Command): Option<Command> {
    ParseAdd(AddText(c))
  }

  lemma PrefixSurvives(prefix: string, s: string)
    requires forall ch | ch in prefix :: !IsNewline(ch)
    ensures prefix <= RemoveNewlines(prefix + s)
  {
    var t := RemoveNewlines(prefix + s);
    forall i | 0 <= i < |prefix| ensures t[i] == prefix[i] {
      assert prefix[i] in prefix;
    }
  }

  /** Whatever its name and command contain, an entry is sent as one line, and the worker takes it
      for an entry. */
  lemma EntryIsOneLine(c: Command)
    ensures GoodLine(AddText(c))
    ensures ParseLine(AddText(c)) == if Arrives(c).None? then Malformed else ListAdd(Arrives(c).value)
  {
    var s := AddText(c);
    assert ADD + " " + c.name + " " + c.line == ADD + (" " + c.name + " " + c.line);
    PrefixSurvives(ADD, " " + c.name + " " + c.line);
    assert s[0] == ADD[0] == 'e';
    assert s[10] == ADD[10] && CLEAR[10] != ADD[10];
  }

  lemma TwoAreGood(m: nat, n: nat)
    ensures forall ch | ch in TwoNumbers(m, n) :: !IsNewline(ch)
  {
    forall ch | ch in TwoNumbers(m, n) ensures !IsNewline(ch) {
      assert ch == ' ' || ch in Decimal(m) || ch in Decimal(n);
    }
  }

  lemma PlainGood(word: string, s: string)
    requires word != "" && word[0] != '\0' && (forall ch | ch in word :: !IsNewline(ch)) && forall ch | ch in s :: !IsNewline(ch)
    ensures GoodLine(word + s)
  {
  }

  lemma WordPassed(word: string, s: string)
    requires s != "" && s[0] == ' '
    ensures word + " " <= word + s && (word + s)[|word|..] == s
  {
    assert (word + s)[..|word| + 1] == word + " ";
  }

  lemma ClearIsRead()
    ensures GoodLine(CLEAR) && ParseLine(CLEAR) == ListClear
  {
  }

  /** A line that starts with the word of an exec request is taken for nothing else. */
  lemma ExecBranch(s: string)
    requires EXEC + " " <= s
    ensures s != CLEAR && !(ADD <= s)
  {
    assert s[4] == ' ' && CLEAR[4] == ADD[4] == '-';
  }

  lemma ExecIsRead(timeout: nat, seqNo: nat)
    ensures GoodLine(ExecText(timeout, seqNo)) && ParseLine(ExecText(timeout, seqNo)) == Exec(timeout, seqNo)
  {
    TwoAreGood(timeout, seqNo);
    PlainGood(EXEC, TwoNumbers(timeout, seqNo));
    WordPassed(EXEC, TwoNumbers(timeout, seqNo));
    ExecBranch(ExecText(timeout, seqNo));
    TwoRead(timeout, seqNo);
  }

  // ---------------------------------------------------------------- results

  datatype Verdict = Disabled | Passed | Failed

  datatype Result = Result(seqNo: nat, verdict: Verdict)

  function CodeOf(v: Verdict): nat {
    match v case Disabled => 0 case Passed => 1 case Failed => 2
  }

  function ResultText(r: Result): string {
    RESULT + TwoNumbers(r.seqNo, CodeOf(r.verdict))
  }

  function ResultOf(numbers: Option<(nat, nat)>): Option<Result> {
    match numbers
    case None => None
    case Some((seqNo, code)) =>
      if code == 0 then Some(Result(seqNo, Disabled))
      else if code == 1 then Some(Result(seqNo, Passed))
      else if code == 2 then Some(Result(seqNo, Failed))
      else None
  }

  /** A line of the worker; None for what is not the text of a result. */
  function ParseResult(s: string): Option<Result> {
    if RESULT + " " <= s then ResultOf(ReadTwo(s[|RESULT|..])) else None
  }

  lemma CodeRead(r: Result)
    ensures ResultOf(Some((r.seqNo, CodeOf(r.verdict)))) == Some(r)
  {
  }

  lemma ResultIsRead(r: Result)
    ensures GoodLine(ResultText(r)) && ParseResult(ResultText(r)) == Some(r)
  {
    var numbers := TwoNumbers(r.seqNo, CodeOf(r.verdict));
    TwoAreGood(r.seqNo, CodeOf(r.verdict));
    PlainGood(RESULT, numbers);
    WordPassed(RESULT, numbers);
    TwoRead(r.seqNo, CodeOf(r.verdict));
    CodeRead(r);
  }

  // ---------------------------------------------------------------- entries that arrive altered

  /** A line end in a command arrives as a space. */
  lemma NewlineArrivesAsSpace(name: string, before: string, after: string)
    requires Sendable(name, before + " " + after)
    ensures Arrives(Command(name, before + "\n" + after)) == Some(Command(name, before + " " + after))
  {
    var lead := ADD + " " + name + " ";
    assert lead + (before + "\n" + after) == (lead + before) + "\n" + after;
    assert lead + (before + " " + after) == (lead + before) + " " + after;
    assert RemoveNewlines((lead + before) + "\n" + after) == RemoveNewlines((lead + before) + " " + after);
    EntryRoundTrip(ADD, name, before + " " + after);
  }

  // ---------------------------------------------------------------- examples of the lines

  lemma DecimalExamples()
    ensures Decimal(12) == "12" && Decimal(5000) == "5000" && Decimal(0) == "0" && Decimal(1) == "1" && Decimal(2) == "2"
  {
    assert Decimal(1) == "1" && Decimal(5) == "5";
    assert Decimal(50) == Decimal(5) + "0";
    assert Decimal(500) == Decimal(50) + "0";
    assert Decimal(5000) == Decimal(500) + "0";
    assert Decimal(12) == Decimal(1) + "2";
  }

  lemma ResultExamples()
    ensures ResultText(Result(12, Disabled)) == "exec-result 12 0"
    ensures ResultText(Result(12, Passed)) == "exec-result 12 1"
    ensures ResultText(Result(12, Failed)) == "exec-result 12 2"
  {
    DecimalExamples();
  }

  /** The lines as they are on the wire. */
  lemma LineExamples()
    ensures ExecText(5000, 12) == "exec 5000 12" && CLEAR == "exec-list-clear"
    ensures AddText(Command("ping", "-c 1")) == "exec-list-add ping -c 1"
  {
    DecimalExamples();
    var s := ADD + " " + "ping" + " " + "-c 1";
    assert s == "exec-list-add ping -c 1";
    assert RemoveNewlines(s) == s;
  }

  /** The test for an added entry does not look behind the keyword: anything may follow it up to
      the next space. */
  lemma KeywordMayGoOn(x: string, name: string, line: string)
    requires ' ' !in x && name != "" && ' ' !in name && line != "" && line[0] != ' '
    ensures ParseLine((ADD + x) + (" " + (name + (" " + line)))) == ListAdd(Command(name, line))
  {
    var rest := name + (" " + line);
    assert rest[0] == name[0] && name[0] in name;
    KeywordPassed(ADD + x, rest);
    EntryParsed(name, line);
    Regrouped(ADD, x, " " + rest);
    AddBranch(ADD, (ADD + x) + (" " + rest), Command(name, line));
  }

  lemma Regrouped(a: string, b: string, c: string)
    ensures a <= (a + b) + c
  {
  }

  lemma AddBranch(add: string, s: string, c: Command)
    requires add == ADD && add <= s && ParseAdd(s) == Some(c)
    ensures ParseLine(s) == ListAdd(c)
  {
    assert s[10] == add[10] && CLEAR[10] != add[10];
  }

  // ---------------------------------------------------------------- other line ends and blanks

  /** A line end, and any further ends and terminators behind it. */
  predicate EndsLine(s: string) {
    s != "" && IsNewline(s[0]) && forall i | 0 <= i < |s| :: IsNewline(s[i]) || s[i] == '\0'
  }

  function JoinedBy(ls: seq<string>, ends: seq<string>): string
    requires |ends| == |ls|
  {
    if ls == [] then "" else ls[0] + ends[0] + JoinedBy(ls[1..], ends[1..])
  }

  lemma {:induction false} EndsSkipped(s: string, text: string)
    requires (forall i | 0 <= i < |s| :: IsNewline(s[i]) || s[i] == '\0')
    requires text == "" || !(IsNewline(text[0]) || text[0] == '\0')
    ensures SkipEnds(s + text) == text
    decreases |s|
  {
    if s == "" {
      assert s + text == text;
    } else {
      assert (s + text)[0] == s[0] && (s + text)[1..] == s[1..] + text;
      EndsSkipped(s[1..], text);
    }
  }

  lemma LineWithEnds(l: string, end: string, text: string)
    requires GoodLine(l) && EndsLine(end) && (text == "" || !(IsNewline(text[0]) || text[0] == '\0'))
    ensures Lines(l + end + text) == ([l] + Lines(text).0, Lines(text).1)
  {
    var buf := l + end + text;
    var n := LineEnd(buf);
    assert buf[|l|] == end[0];
    forall i | 0 <= i < |l| ensures !IsNewline(buf[i]) {
      assert buf[i] == l[i];
    }
    assert n == |l| && buf[..n] == l && buf[n + 1..] == end[1..] + text;
    EndsSkipped(end[1..], text);
  }

  lemma LineWithEndsOf(l: string, end: string, text: string, ls: seq<string>, partial: string)
    requires GoodLine(l) && EndsLine(end) && (text == "" || !(IsNewline(text[0]) || text[0] == '\0'))
    requires Lines(text) == (ls, partial)
    ensures Lines(l + end + text) == ([l] + ls, partial)
  {
    LineWithEnds(l, end, text);
  }

  lemma JoinedByFront(ls: seq<string>, ends: seq<string>, partial: string)
    requires ls != [] && |ends| == |ls|
    ensures JoinedBy(ls, ends) + partial == ls[0] + ends[0] + (JoinedBy(ls[1..], ends[1..]) + partial)
  {
  }

  lemma JoinedByStarts(ls: seq<string>, ends: seq<string>, partial: string)
    requires |ends| == |ls| && GoodText(ls, partial)
    ensures var text := JoinedBy(ls, ends) + partial; text == "" || !(IsNewline(text[0]) || text[0] == '\0')
  {
    if ls != [] {
      assert (JoinedBy(ls, ends) + partial)[0] == ls[0][0];
    } else {
      assert JoinedBy(ls, ends) + partial == partial;
    }
  }

  /** Whatever line ends and terminators are behind a line, the lines are read and none between. */
  lemma {:induction false} LinesWithAnyEnds(ls: seq<string>, ends: seq<string>, partial: string)
    requires |ends| == |ls| && GoodText(ls, partial) && forall i | 0 <= i < |ends| :: EndsLine(ends[i])
    ensures Lines(JoinedBy(ls, ends) + partial) == (ls, partial)
    decreases |ls|
  {
    if ls == [] {
      NoLine(partial);
      assert JoinedBy(ls, ends) + partial == partial;
    } else {
      LinesWithAnyEnds(ls[1..], ends[1..], partial);
      OneMoreWithEnds(ls, ends, partial, JoinedBy(ls[1..], ends[1..]) + partial);
    }
  }

  lemma OneMoreWithEnds(ls: seq<string>, ends: seq<string>, partial: string, text: string)
    requires ls != [] && |ends| == |ls| && GoodText(ls, partial) && EndsLine(ends[0])
    requires text == JoinedBy(ls[1..], ends[1..]) + partial && Lines(text) == (ls[1..], partial)
    ensures Lines(JoinedBy(ls, ends) + partial) == (ls, partial)
  {
    JoinedByStarts(ls[1..], ends[1..], partial);
    JoinedByFront(ls, ends, partial);
    HeadOfLines(ls);
    LineWithEndsOf(ls[0], ends[0], text, ls[1..], partial);
  }

  /** Any white space may stand before a number. */
  lemma NumberBehindBlanks(gap: string, n: nat, rest: string)
    requires (forall i | 0 <= i < |gap| :: IsSpace(gap[i])) && (rest == "" || !IsDigit(rest[0]))
    ensures ReadNumber(gap + (Decimal(n) + rest)) == Some(Number(n, rest))
  {
    var ds := Decimal(n);
    var s := gap + (ds + rest);
    var k := BlankLength(s);
    assert s[|gap|] == ds[0] && ds[0] in ds;
    forall i | 0 <= i < |gap| ensures IsSpace(s[i]) {
      assert s[i] == gap[i];
    }
    assert k == |gap| && s[k..] == ds + rest;
    DigitsEnd(ds, rest);
    assert (ds + rest)[..|ds|] == ds && (ds + rest)[|ds|..] == rest;
    DecimalValue(n);
  }
}
