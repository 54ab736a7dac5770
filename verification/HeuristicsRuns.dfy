/**
  A run in which a PASS is used that another command has earned: a line end in a command
  arrives at the worker as a space.
*/
module HeuristicsRuns {
  import opened Tlv
  import opened HeuristicsLines
  import opened Heuristics

  /** One entry is sent, its list is run once, the process exits with 0, the result is read. */
  function OneCommandRun(c: Command): seq<Action> {
    [ChangeList([c], 0)] + ([Request(0)] + READS)
  }

  const READS: seq<Action> := [ReadRequest(true)] + ([ReadRequest(true)] + ([ReadRequest(true)] + ENDS))
  const ENDS: seq<Action> := [Works(ProcessEnds(0, true))] + ([Works(Poll)] + ([ReadResult] + []))

  function Ran(d: Command, state: ProcessState): seq<Process> {
    [Process(d.name, Argv(d), state)]
  }

  /** The lines of that run. */
  datatype Texts = Texts(clear: string, add: string, exec: string, answer: string)

  /** What they say when entry c arrives as d. */
  predicate Say(x: Texts, d: Command) {
    && ParseLine(x.clear) == ListClear && ParseLine(x.add) == ListAdd(d) && ParseLine(x.exec) == Exec(0, 1)
    && ParseResult(x.answer) == Some(Result(1, Passed))
  }

  /** The states of the worker before and after each line. */
  function WorkerAt(k: nat, d: Command): Worker
    requires k <= 8
  {
    if k < 4 then Worker([], 0, false, [], false)
    else if k == 4 then Worker([d], 0, false, [], false)
    else if k == 5 then Worker([d], 1, true, Ran(d, Running), false)
    else if k == 6 then Worker([d], 1, true, Ran(d, Exited(true)), false)
    else Worker([d], 1, false, [], false)
  }

  function RequestsAt(k: nat, x: Texts): seq<string>
    requires k <= 8
  {
    if k == 0 || k >= 5 then []
    else if k == 1 then [x.clear, x.add]
    else [x.clear, x.add, x.exec][k - 2..]
  }

  /** The states of the run. */
  function Stage(k: nat, c: Command, d: Command, x: Texts): State
    requires k <= 8
  {
    State(if k == 0 then Main(0, false, []) else if k == 1 then Main(0, false, [c]) else Main(1, k < 8, [c]),
          WorkerAt(k, d), RequestsAt(k, x), if k == 7 then [x.answer] else [],
          if k >= 7 then map[1 := Answer(WorkerAt(6, d), Poll)] else map[],
          if k == 8 then [Use(Result(1, Passed), 1, [c])] else [])
  }

  // ---------------------------------------------------------------- the steps

  /** What reading a line that means l does to the state. */
  predicate LineStep(s: State, l: Line, t: State) {
    && s.requests != [] && !s.worker.stopped && !s.worker.timer
    && t == s.(requests := s.requests[1..], worker := t.worker)
    && match l
       case ListClear => t.worker == s.worker.(commands := [])
       case ListAdd(d) => t.worker == s.worker.(commands := s.worker.commands + [d])
       case Exec(_, seqNo) =>
         s.worker.commands != [] && Parsable(s.worker.commands)
         && t.worker == s.worker.(last := seqNo, timer := true, active := s.worker.active + Started(s.worker.commands))
       case Malformed => false
  }

  lemma LineStepIsNext(s: State, l: Line, t: State)
    requires LineStep(s, l, t) && ParseLine(s.requests[0]) == l
    ensures Enabled(s, ReadRequest(true)) && Next(s, ReadRequest(true)) == t
  {
    assert s.results + [] == s.results;
  }

  lemma MainSends(c: Command, d: Command, x: Texts)
    requires x.clear == CLEAR && x.add == AddText(c) && x.exec == ExecText(0, 1)
    ensures Next(Stage(0, c, d, x), ChangeList([c], 0)) == Stage(1, c, d, x)
    ensures Next(Stage(1, c, d, x), Request(0)) == Stage(2, c, d, x)
  {
    assert ListTexts([c]) == [x.clear, x.add];
    assert [] + [x.clear, x.add] == [x.clear, x.add] && [x.clear, x.add] + [x.exec] == [x.clear, x.add, x.exec];
  }

  function LineAt(k: nat, d: Command): Line {
    if k == 2 then ListClear else if k == 3 then ListAdd(d) else Exec(0, 1)
  }

  lemma WorkerReads(k: nat, c: Command, d: Command, x: Texts)
    requires 2 <= k < 5 && Argv(d) != []
    ensures LineStep(Stage(k, c, d, x), LineAt(k, d), Stage(k + 1, c, d, x))
  {
    assert [] + [d] == [d] && [] + Started([d]) == Ran(d, Running);
  }

  lemma WorkerDecides(c: Command, d: Command, x: Texts)
    requires x.answer == ResultText(Result(1, Passed))
    ensures Next(Stage(5, c, d, x), Works(ProcessEnds(0, true))) == Stage(6, c, d, x)
    ensures Next(Stage(6, c, d, x), Works(Poll)) == Stage(7, c, d, x)
  {
    assert Ran(d, Running)[0 := Ran(d, Exited(true))[0]] == Ran(d, Exited(true));
    assert forall p | p in Ran(d, Exited(true)) :: p.state == Exited(true);
    assert [] + [x.answer] == [x.answer];
  }

  /** Reading line k. */
  lemma ReadStep(k: nat, c: Command, d: Command, x: Texts)
    requires 2 <= k < 5 && Argv(d) != [] && Say(x, d)
    ensures Enabled(Stage(k, c, d, x), ReadRequest(true)) && Next(Stage(k, c, d, x), ReadRequest(true)) == Stage(k + 1, c, d, x)
  {
    WorkerReads(k, c, d, x);
    FirstLines(k, c, d, x);
    LineStepIsNext(Stage(k, c, d, x), LineAt(k, d), Stage(k + 1, c, d, x));
  }

  lemma WorkerPart(c: Command, d: Command, x: Texts)
    requires Say(x, d) && x.answer == ResultText(Result(1, Passed))
    ensures Run(Stage(5, c, d, x), ENDS) && EndOf(Stage(5, c, d, x), ENDS) == Stage(8, c, d, x)
  {
    WorkerDecides(c, d, x);
    PassUsed(c, d, x);
    Prepended(Stage(7, c, d, x), ReadResult, Stage(8, c, d, x), [], Stage(8, c, d, x));
    Prepended(Stage(6, c, d, x), Works(Poll), Stage(7, c, d, x), [ReadResult] + [], Stage(8, c, d, x));
    Prepended(Stage(5, c, d, x), Works(ProcessEnds(0, true)), Stage(6, c, d, x), [Works(Poll)] + ([ReadResult] + []), Stage(8, c, d, x));
  }

  lemma ReadOnce(k: nat, c: Command, d: Command, x: Texts, rest: seq<Action>)
    requires 2 <= k < 5 && Argv(d) != [] && Say(x, d)
    requires Run(Stage(k + 1, c, d, x), rest) && EndOf(Stage(k + 1, c, d, x), rest) == Stage(8, c, d, x)
    ensures Run(Stage(k, c, d, x), [ReadRequest(true)] + rest)
    ensures EndOf(Stage(k, c, d, x), [ReadRequest(true)] + rest) == Stage(8, c, d, x)
  {
    ReadStep(k, c, d, x);
    Prepended(Stage(k, c, d, x), ReadRequest(true), Stage(k + 1, c, d, x), rest, Stage(8, c, d, x));
  }

  lemma ReadPart(c: Command, d: Command, x: Texts)
    requires Argv(d) != [] && Say(x, d) && x.answer == ResultText(Result(1, Passed))
    ensures Run(Stage(2, c, d, x), READS) && EndOf(Stage(2, c, d, x), READS) == Stage(8, c, d, x)
  {
    WorkerPart(c, d, x);
    ReadOnce(4, c, d, x, ENDS);
    ReadOnce(3, c, d, x, [ReadRequest(true)] + ENDS);
    ReadOnce(2, c, d, x, [ReadRequest(true)] + ([ReadRequest(true)] + ENDS));
  }

  lemma WholeRun(c: Command, d: Command, x: Texts)
    requires Argv(d) != [] && Say(x, d)
    requires x == Texts(CLEAR, AddText(c), ExecText(0, 1), ResultText(Result(1, Passed)))
    ensures Run(INITIAL, OneCommandRun(c)) && EndOf(INITIAL, OneCommandRun(c)) == Stage(8, c, d, x)
  {
    ReadPart(c, d, x);
    MainSends(c, d, x);
    Prepended(Stage(1, c, d, x), Request(0), Stage(2, c, d, x), READS, Stage(8, c, d, x));
    Prepended(Stage(0, c, d, x), ChangeList([c], 0), Stage(1, c, d, x), [Request(0)] + READS, Stage(8, c, d, x));
  }

  lemma TextsSay(c: Command, d: Command) returns (x: Texts)
    requires Arrives(c) == Some(d)
    ensures x == Texts(CLEAR, AddText(c), ExecText(0, 1), ResultText(Result(1, Passed))) && Say(x, d)
  {
    x := Texts(CLEAR, AddText(c), ExecText(0, 1), ResultText(Result(1, Passed)));
    ClearIsRead();
    EntryIsOneLine(c);
    ExecIsRead(0, 1);
    ResultIsRead(Result(1, Passed));
  }

  function TextAt(k: nat, x: Texts): string {
    if k == 2 then x.clear else if k == 3 then x.add else x.exec
  }

  lemma FirstTexts(k: nat, x: Texts)
    requires 2 <= k < 5
    ensures RequestsAt(k, x) != [] && RequestsAt(k, x)[0] == TextAt(k, x)
  {
  }

  lemma FirstLines(k: nat, c: Command, d: Command, x: Texts)
    requires 2 <= k < 5 && Say(x, d)
    ensures Stage(k, c, d, x).requests != [] && ParseLine(Stage(k, c, d, x).requests[0]) == LineAt(k, d)
  {
    FirstTexts(k, x);
    assert ParseLine(TextAt(k, x)) == LineAt(k, d);
  }

  /** Reading the only result. */
  lemma ResultStep(s: State, m: Main, u: Use)
    requires |s.results| == 1 && MainLine(s.main, s.results[0]) == (m, [u]) && s.used == []
    ensures Next(s, ReadResult) == s.(main := m, results := [], used := [u])
  {
    assert [] + [u] == [u];
  }

  lemma PassUsed(c: Command, d: Command, x: Texts)
    requires Say(x, d)
    ensures Next(Stage(7, c, d, x), ReadResult) == Stage(8, c, d, x)
  {
    ResultRead(Main(1, true, [c]), x.answer, Result(1, Passed));
    ResultStep(Stage(7, c, d, x), Main(1, false, [c]), Use(Result(1, Passed), 1, [c]));
  }

  /** A command with a line end in it: the main process uses a PASS for its present list, and the
      process that has earned it was started from another command. */
  lemma AnotherCommandPasses(name: string, before: string, after: string) returns (s: State)
    requires Sendable(name, before + " " + after) && Argv(Command(name, before + " " + after)) != []
    ensures var c, d := Command(name, before + "\n" + after), Command(name, before + " " + after);
            && c != d && Run(INITIAL, OneCommandRun(c)) && s == EndOf(INITIAL, OneCommandRun(c))
            && s.main.commands == [c] && s.used == [Use(Result(1, Passed), 1, [c])]
            && 1 in s.answers && s.answers[1].worker.active == [Process(name, Argv(d), Exited(true))]
  {
    var c, d := Command(name, before + "\n" + after), Command(name, before + " " + after);
    NewlineArrivesAsSpace(name, before, after);
    assert c.line[|before|] == '\n' && d.line[|before|] == ' ';
    var x := TextsSay(c, d);
    WholeRun(c, d, x);
    s := Stage(8, c, d, x);
  }
}
