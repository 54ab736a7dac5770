/**
  The heuristics pipes as they are: each carries text, and a read takes any part of what is
  under way. The two processes over such pipes and over pipes of whole lines reach the same.
*/
module HeuristicsStream {
  import opened HeuristicsLines
  import opened Heuristics

  /** One direction: the incomplete line that the reader holds, and the text under way. */
  datatype Pipe = Pipe(held: string, sent: string)

  datatype Stream = Stream(
    main: Main,
    worker: Worker,
    requests: Pipe,
    results: Pipe,
    answers: map<nat, Answer>,
    used: seq<Use>)

  function Put(p: Pipe, texts: seq<string>): Pipe {
    p.(sent := p.sent + Joined(texts))
  }

  /** Read n characters: the lines that are complete by now, and what is left. */
  function Take(p: Pipe, n: nat): (seq<string>, Pipe)
    requires n <= |p.sent|
  {
    var (ls, held) := Lines(p.held + p.sent[..n]);
    (ls, Pipe(held, p.sent[n..]))
  }

  /** What a process does by itself, or a read of n characters; `startable` is for each line. */
  datatype Move = Acts(action: Action) | MainReads(n: nat) | WorkerReads(n: nat, startable: seq<bool>)

  predicate Possible(s: Stream, m: Move) {
    match m
    case Acts(action) => !action.ReadResult? && !action.ReadRequest? && (action.Works? ==> !action.work.ReadLine?)
    case MainReads(n) => n <= |s.results.sent|
    case WorkerReads(n, startable) =>
      !s.worker.stopped && n <= |s.requests.sent| && |startable| == |Take(s.requests, n).0|
  }

  function Worked(s: Stream, work: Work): Stream {
    var (w, texts) := WorkerStep(s.worker, work);
    s.(worker := w, results := Put(s.results, texts), answers := Recorded(s.answers, s.worker, work, w.last, texts))
  }

  /** The worker handles its lines until one stops it. */
  function WorkerLines(s: Stream, texts: seq<string>, startable: seq<bool>): Stream
    requires |texts| == |startable|
    decreases |texts|
  {
    if texts == [] || s.worker.stopped then s
    else WorkerLines(Worked(s, ReadLine(texts[0], startable[0])), texts[1..], startable[1..])
  }

  function MainLines(s: Stream, texts: seq<string>): Stream
    decreases |texts|
  {
    if texts == [] then s
    else
      var (m, uses) := MainLine(s.main, texts[0]);
      MainLines(s.(main := m, used := s.used + uses), texts[1..])
  }

  function Moved(s: Stream, m: Move): Stream
    requires Possible(s, m)
  {
    match m
    case Acts(Request(timeout)) =>
      var (main, texts) := MainExec(s.main, timeout);
      s.(main := main, requests := Put(s.requests, texts))
    case Acts(ChangeList(commands, timeout)) =>
      var (main, texts) := MainChangeList(s.main, commands, timeout);
      s.(main := main, requests := Put(s.requests, texts))
    case Acts(Works(work)) => Worked(s, work)
    case MainReads(n) =>
      var (texts, p) := Take(s.results, n);
      MainLines(s.(results := p), texts)
    case WorkerReads(n, startable) =>
      var (texts, p) := Take(s.requests, n);
      WorkerLines(s.(requests := p), texts, startable)
  }

  const START := Stream(INITIAL.main, INITIAL.worker, Pipe("", ""), Pipe("", ""), map[], [])

  predicate Moves(s: Stream, moves: seq<Move>)
    decreases |moves|
  {
    moves == [] || (Possible(s, moves[0]) && Moves(Moved(s, moves[0]), moves[1..]))
  }

  function MovedBy(s: Stream, moves: seq<Move>): Stream
    requires Moves(s, moves)
    decreases |moves|
  {
    if moves == [] then s else MovedBy(Moved(s, moves[0]), moves[1..])
  }

  // ---------------------------------------------------------------- one pipe

  /** What is held and what is under way are the text of these lines. */
  predicate Carries(p: Pipe, ls: seq<string>) {
    GoodText(ls, "") && (p.held == "" || GoodLine(p.held)) && p.held + p.sent == Joined(ls)
  }

  lemma {:induction false} JoinedAppend(a: seq<string>, b: seq<string>)
    ensures Joined(a + b) == Joined(a) + Joined(b)
    decreases |a|
  {
    if a == [] {
      assert a + b == b;
    } else {
      assert (a + b)[0] == a[0] && (a + b)[1..] == a[1..] + b;
      JoinedAppend(a[1..], b);
    }
  }

  lemma PutCarries(p: Pipe, ls: seq<string>, texts: seq<string>)
    requires Carries(p, ls) && GoodText(texts, "")
    ensures Carries(Put(p, texts), ls + texts)
  {
    JoinedAppend(ls, texts);
    assert p.held + (p.sent + Joined(texts)) == (p.held + p.sent) + Joined(texts);
  }

  /** Wherever a read cuts the text, it completes the next lines. */
  lemma TakeCarries(p: Pipe, ls: seq<string>, n: nat) returns (k: nat)
    requires Carries(p, ls) && n <= |p.sent|
    ensures k <= |ls| && Take(p, n).0 == ls[..k] && Carries(Take(p, n).1, ls[k..])
  {
    var part, rest := p.held + p.sent[..n], p.sent[n..];
    assert part + rest == p.held + p.sent == Joined(ls) + "";
    k := CutText(ls, "", part, rest);
    assert Joined(ls[k..]) + "" == Joined(ls[k..]);
  }

  /** A read may take exactly one line. */
  lemma OneLineTaken(p: Pipe, ls: seq<string>)
    requires Carries(p, ls) && p.held == "" && ls != []
    ensures var n := |ls[0]| + 1;
            && n <= |p.sent| && Take(p, n).0 == [ls[0]]
            && Take(p, n).1.held == "" && Carries(Take(p, n).1, ls[1..])
  {
    var l, tail := ls[0], Joined(ls[1..]);
    assert p.sent == p.held + p.sent;
    FrontOfText(l, tail, p.sent);
    assert p.held + (l + "\n") == l + "\n";
    WholeLine(l);
    assert "" + tail == tail;
  }

  lemma FrontOfText(l: string, tail: string, text: string)
    requires text == l + "\n" + tail
    ensures |l| + 1 <= |text| && text[..|l| + 1] == l + "\n" && text[|l| + 1..] == tail
  {
  }

  lemma WholeLine(l: string)
    requires GoodLine(l)
    ensures Lines(l + "\n") == ([l], "")
  {
    NoLine("");
    FirstLineOf(l, "", [], "");
    assert l + "\n" + "" == l + "\n" && [l] + [] == [l];
  }

  // ---------------------------------------------------------------- the two machines

  predicate Same(s: Stream, t: State) {
    s.main == t.main && s.worker == t.worker && s.answers == t.answers && s.used == t.used && Carries(s.results, t.results)
  }

  /** A worker that has stopped reads nothing more. */
  predicate Matches(s: Stream, t: State) {
    Same(s, t) && (!s.worker.stopped ==> Carries(s.requests, t.requests))
  }

  /** One step writes one result at most. */
  lemma OneResult(w: Worker, work: Work) returns (r: Result)
    ensures WorkerStep(w, work).1 == [] || WorkerStep(w, work).1 == [ResultText(r)]
  {
    r := Result(w.last, Failed);
    match work
    case ReadLine(text, startable) =>
      if ParseLine(text).Exec? {
        r := Result(ParseLine(text).seqNo, if w.commands == [] then Disabled else Failed);
      }
    case Poll =>
      if SummaryShort(w.active) == AllPassed {
        r := Result(w.last, Passed);
      }
    case _ =>
  }

  lemma ResultsAreLines(w: Worker, work: Work)
    ensures GoodText(WorkerStep(w, work).1, "")
  {
    var r := OneResult(w, work);
    ResultIsRead(r);
  }

  lemma OneLine(l: string)
    requires GoodLine(l)
    ensures GoodText([l], "")
  {
  }

  lemma ExecIsLine(m: Main, timeout: nat)
    ensures GoodText(MainExec(m, timeout).1, "")
  {
    TwoAreGood(timeout, m.expected + 1);
    PlainGood(EXEC, TwoNumbers(timeout, m.expected + 1));
    OneLine(ExecText(timeout, m.expected + 1));
  }

  lemma ListIsLines(commands: seq<Command>)
    ensures GoodText(ListTexts(commands), "")
  {
    forall i | 0 <= i <= |commands| ensures GoodLine(ListTexts(commands)[i]) {
      if i == 0 {
        ClearIsRead();
      } else {
        EntryIsOneLine(commands[i - 1]);
      }
    }
  }

  lemma GoodTexts(a: seq<string>, b: seq<string>)
    requires GoodText(a, "") && GoodText(b, "")
    ensures GoodText(a + b, "")
  {
  }

  lemma ChangeIsLines(m: Main, commands: seq<Command>, timeout: nat)
    ensures GoodText(MainChangeList(m, commands, timeout).1, "")
  {
    var m1 := m.(commands := commands);
    ListIsLines(commands);
    ExecIsLine(m1, timeout);
    GoodTexts(ListTexts(commands), MainExec(m1, timeout).1);
  }

  lemma WorkMatches(s: Stream, t: State, work: Work)
    requires Same(s, t)
    ensures Same(Worked(s, work), Heuristics.Worked(t, work))
  {
    ResultsAreLines(s.worker, work);
    PutCarries(s.results, t.results, WorkerStep(s.worker, work).1);
  }

  /** The lines of one read by the worker, one at a time. */
  lemma {:induction false} WorkerLinesRun(s: Stream, t: State, texts: seq<string>, startable: seq<bool>) returns (run: seq<Action>)
    requires Same(s, t) && |startable| == |texts| <= |t.requests| && texts == t.requests[..|texts|]
    requires Carries(s.requests, t.requests[|texts|..])
    ensures Run(t, run) && Matches(WorkerLines(s, texts, startable), EndOf(t, run))
    decreases |texts|
  {
    if texts == [] || s.worker.stopped {
      assert texts == [] ==> t.requests[|texts|..] == t.requests;
      return [];
    }
    var work, a := ReadLine(texts[0], startable[0]), ReadRequest(startable[0]);
    var t0 := t.(requests := t.requests[1..]);
    assert Next(t, a) == Heuristics.Worked(t0, work);
    WorkMatches(s, t0, work);
    assert t0.requests[|texts[1..]|..] == t.requests[|texts|..];
    var rest := WorkerLinesRun(Worked(s, work), Next(t, a), texts[1..], startable[1..]);
    Prepended(t, a, Next(t, a), rest, EndOf(Next(t, a), rest));
    run := [a] + rest;
  }

  lemma MainLineNext(t: State, m: Main, uses: seq<Use>)
    requires t.results != [] && MainLine(t.main, t.results[0]) == (m, uses)
    ensures Next(t, ReadResult) == t.(main := m, results := t.results[1..], used := t.used + uses)
  {
  }

  /** The lines of one read by the main process. */
  lemma {:induction false} MainLinesRun(s: Stream, t: State, texts: seq<string>) returns (run: seq<Action>)
    requires s.main == t.main && s.worker == t.worker && s.answers == t.answers && s.used == t.used
    requires |texts| <= |t.results| && texts == t.results[..|texts|] && Carries(s.results, t.results[|texts|..])
    requires !s.worker.stopped ==> Carries(s.requests, t.requests)
    ensures Run(t, run) && Matches(MainLines(s, texts), EndOf(t, run))
    decreases |texts|
  {
    if texts == [] {
      assert t.results[|texts|..] == t.results;
      return [];
    }
    var (m, uses) := MainLine(s.main, texts[0]);
    var s1, t1 := s.(main := m, used := s.used + uses), Next(t, ReadResult);
    MainLineNext(t, m, uses);
    assert t1.results[|texts[1..]|..] == t.results[|texts|..];
    var rest := MainLinesRun(s1, t1, texts[1..]);
    Prepended(t, ReadResult, t1, rest, EndOf(t1, rest));
    run := [ReadResult] + rest;
  }

  lemma ActMatches(s: Stream, t: State, a: Action)
    requires Matches(s, t) && Possible(s, Acts(a))
    ensures Enabled(t, a) && Matches(Moved(s, Acts(a)), Next(t, a))
  {
    match a
    case Request(timeout) =>
      ExecIsLine(s.main, timeout);
      if !s.worker.stopped {
        PutCarries(s.requests, t.requests, MainExec(s.main, timeout).1);
      }
    case ChangeList(commands, timeout) =>
      ChangeIsLines(s.main, commands, timeout);
      if !s.worker.stopped {
        PutCarries(s.requests, t.requests, MainChangeList(s.main, commands, timeout).1);
      }
    case Works(work) => WorkMatches(s, t, work);
  }

  /** A move is a series of steps over lines. */
  lemma MoveMatches(s: Stream, t: State, m: Move) returns (run: seq<Action>)
    requires Matches(s, t) && Possible(s, m)
    ensures Run(t, run) && Matches(Moved(s, m), EndOf(t, run))
  {
    match m
    case Acts(a) =>
      ActMatches(s, t, a);
      Prepended(t, a, Next(t, a), [], Next(t, a));
      run := [a] + [];
    case MainReads(n) =>
      var k := TakeCarries(s.results, t.results, n);
      run := MainLinesRun(s.(results := Take(s.results, n).1), t, t.results[..k]);
    case WorkerReads(n, startable) =>
      var k := TakeCarries(s.requests, t.requests, n);
      run := WorkerLinesRun(s.(requests := Take(s.requests, n).1), t, t.requests[..k], startable);
  }

  lemma FirstStep(s: State, run: seq<Action>) returns (t: State)
    requires run != [] && Run(s, run)
    ensures Enabled(s, run[0]) && Next(s, run[0]) == t && Run(t, run[1..]) && EndOf(t, run[1..]) == EndOf(s, run)
  {
    t := Next(s, run[0]);
  }

  /** Two runs one after the other. */
  lemma {:induction false} RunsAppend(s: State, a: seq<Action>, mid: State, b: seq<Action>, end: State) returns (run: seq<Action>)
    requires Run(s, a) && EndOf(s, a) == mid && Run(mid, b) && EndOf(mid, b) == end
    ensures Run(s, run) && EndOf(s, run) == end
    decreases |a|
  {
    if a == [] {
      return b;
    }
    var t := FirstStep(s, a);
    var rest := RunsAppend(t, a[1..], mid, b, end);
    Prepended(s, a[0], t, rest, end);
    run := [a[0]] + rest;
  }

  /** Whatever the reads take, both processes do what they do over pipes of whole lines. */
  lemma {:induction false} CutPipesAreLines(s: Stream, t: State, moves: seq<Move>) returns (run: seq<Action>)
    requires Matches(s, t) && Moves(s, moves)
    ensures Run(t, run) && Matches(MovedBy(s, moves), EndOf(t, run))
    decreases |moves|
  {
    if moves == [] {
      return [];
    }
    var first := MoveMatches(s, t, moves[0]);
    var rest := CutPipesAreLines(Moved(s, moves[0]), EndOf(t, first), moves[1..]);
    run := RunsAppend(t, first, EndOf(t, first), rest, EndOf(EndOf(t, first), rest));
  }

  // ---------------------------------------------------------------- and back

  /** No reader holds a part of a line. */
  predicate Whole(s: Stream, t: State) {
    Matches(s, t) && s.results.held == "" && s.requests.held == ""
  }

  lemma ResultIsMove(s: Stream, t: State)
    requires Whole(s, t) && t.results != []
    ensures var m := MainReads(|t.results[0]| + 1);
            Possible(s, m) && Whole(Moved(s, m), Next(t, ReadResult))
  {
    OneLineTaken(s.results, t.results);
    OneMainLine(s.(results := Take(s.results, |t.results[0]| + 1).1), t.results[0]);
  }

  lemma RequestIsMove(s: Stream, t: State, startable: bool)
    requires Whole(s, t) && t.requests != [] && !t.worker.stopped
    ensures var m := WorkerReads(|t.requests[0]| + 1, [startable]);
            Possible(s, m) && Whole(Moved(s, m), Next(t, ReadRequest(startable)))
  {
    OneLineTaken(s.requests, t.requests);
    var p := Take(s.requests, |t.requests[0]| + 1).1;
    OneWorkerLine(s.(requests := p), t.requests[0], startable);
    WorkMatches(s.(requests := p), t.(requests := t.requests[1..]), ReadLine(t.requests[0], startable));
  }

  lemma StepIsMove(s: Stream, t: State, a: Action) returns (m: Move)
    requires Whole(s, t) && Enabled(t, a)
    ensures Possible(s, m) && Whole(Moved(s, m), Next(t, a))
  {
    match a
    case ReadResult =>
      m := MainReads(|t.results[0]| + 1);
      ResultIsMove(s, t);
    case ReadRequest(startable) =>
      m := WorkerReads(|t.requests[0]| + 1, [startable]);
      RequestIsMove(s, t, startable);
    case _ =>
      m := Acts(a);
      ActMatches(s, t, a);
  }

  lemma OneMainLine(s: Stream, text: string)
    ensures var (m, uses) := MainLine(s.main, text);
            MainLines(s, [text]) == s.(main := m, used := s.used + uses)
  {
    assert [text][1..] == [];
  }

  lemma OneWorkerLine(s: Stream, text: string, startable: bool)
    requires !s.worker.stopped
    ensures WorkerLines(s, [text], [startable]) == Worked(s, ReadLine(text, startable))
  {
    assert [text][1..] == [] && [startable][1..] == [];
  }

  lemma MovePrepended(s: Stream, m: Move, rest: seq<Move>)
    requires Possible(s, m) && Moves(Moved(s, m), rest)
    ensures Moves(s, [m] + rest) && MovedBy(s, [m] + rest) == MovedBy(Moved(s, m), rest)
  {
    assert ([m] + rest)[0] == m && ([m] + rest)[1..] == rest;
  }

  /** Every run over lines can be had over text: reads that take one line each. */
  lemma {:induction false} LinesAreCutPipes(s: Stream, t: State, run: seq<Action>) returns (moves: seq<Move>)
    requires Whole(s, t) && Run(t, run)
    ensures Moves(s, moves) && Whole(MovedBy(s, moves), EndOf(t, run))
    decreases |run|
  {
    if run == [] {
      return [];
    }
    var m := StepIsMove(s, t, run[0]);
    var rest := LinesAreCutPipes(Moved(s, m), Next(t, run[0]), run[1..]);
    MovePrepended(s, m, rest);
    moves := [m] + rest;
  }

  // ---------------------------------------------------------------- the guarantee

  lemma BothStart()
    ensures Whole(START, INITIAL)
  {
    assert Joined([]) == "" && "" + "" == "";
  }

  /** However reads and writes cut the text on the pipes, the results that have been used are
      honest: each once, of the latest request, and a PASS only for what the present list
      arrives as. */
  lemma ResultsAreHonest(moves: seq<Move>)
    requires Moves(START, moves)
    ensures Honest(MovedBy(START, moves).used, MovedBy(START, moves).answers)
  {
    BothStart();
    var run := CutPipesAreLines(START, INITIAL, moves);
    Heuristics.ResultsAreHonest(run);
  }

  predicate ByText(moves: seq<Move>, used: seq<Use>, answers: map<nat, Answer>) {
    Moves(START, moves) && MovedBy(START, moves).used == used && MovedBy(START, moves).answers == answers
  }

  predicate ByLines(run: seq<Action>, used: seq<Use>, answers: map<nat, Answer>) {
    Run(INITIAL, run) && EndOf(INITIAL, run).used == used && EndOf(INITIAL, run).answers == answers
  }

  /** The histories are exactly those over pipes of whole lines. */
  lemma SameHistories(used: seq<Use>, answers: map<nat, Answer>)
    ensures (exists moves :: ByText(moves, used, answers)) <==> (exists run :: ByLines(run, used, answers))
  {
    BothStart();
    if moves :| ByText(moves, used, answers) {
      var run := CutPipesAreLines(START, INITIAL, moves);
      assert ByLines(run, used, answers);
    }
    if run :| ByLines(run, used, answers) {
      var moves := LinesAreCutPipes(START, INITIAL, run);
      assert ByText(moves, used, answers);
    }
  }
}
