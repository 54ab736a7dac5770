/**
  Heuristics requests: the main process and its worker as a state machine over two FIFO pipes
  of text lines. A result is used at most once and only for the latest request, and a PASS that
  is used was earned by the commands that the lines of the main process's present list stand
  for. `HeuristicsStream` takes this over to pipes that carry text cut at any place.
*/
module Heuristics {
  import opened Tlv
  import opened HeuristicsLines
  import SimpleLex

  /** A started process: running, or finished well or badly. */
  datatype ProcessState = Running | Exited(ok: bool)

  datatype Process = Process(name: string, argv: seq<string>, state: ProcessState)

  datatype Main = Main(expected: nat, waiting: bool, commands: seq<Command>)

  /** The worker; `timer` is set while processes of request `last` are being waited for, and
      `stopped` after an error, when the worker has left its loop. */
  datatype Worker = Worker(commands: seq<Command>, last: nat, timer: bool, active: seq<Process>, stopped: bool)

  /** A result that was used, with the latest request and the list of that moment. */
  datatype Use = Use(result: Result, latest: nat, commands: seq<Command>)

  /** `answers` is history: for each result written, the worker as it was and what it was doing.
      So is `used`. */
  datatype State = State(
    main: Main,
    worker: Worker,
    requests: seq<string>,
    results: seq<string>,
    answers: map<nat, Answer>,
    used: seq<Use>)

  // ---------------------------------------------------------------- the main process

  /** A clear line and one line for each entry. */
  function ListTexts(commands: seq<Command>): (texts: seq<string>)
    ensures |texts| == |commands| + 1
    ensures texts[0] == CLEAR && forall i | 0 < i < |texts| :: texts[i] == AddText(commands[i - 1])
  {
    [CLEAR] + seq(|commands|, i requires 0 <= i < |commands| => AddText(commands[i]))
  }

  /** Start the heuristics: a new number, and its result is awaited. */
  function MainExec(m: Main, timeout: nat): (Main, seq<string>) {
    (m.(expected := m.expected + 1, waiting := true), [ExecText(timeout, m.expected + 1)])
  }

  /** Replace the exec list; a request under way is started anew with the new list. */
  function MainChangeList(m: Main, commands: seq<Command>, timeout: nat): (Main, seq<string>) {
    var m1 := m.(commands := commands);
    if m.waiting then
      var (m2, texts) := MainExec(m1, timeout);
      (m2, ListTexts(commands) + texts)
    else (m1, ListTexts(commands))
  }

  /** A result is used when one is awaited and it has the latest number. */
  function MainResult(m: Main, text: string): (Main, Option<Result>) {
    match ParseResult(text)
    case None => (m, None)
    case Some(r) => if m.waiting && r.seqNo == m.expected then (m.(waiting := false), Some(r)) else (m, None)
  }

  /** A line that the main process reads, with the use of its result. */
  function MainLine(m: Main, text: string): (Main, seq<Use>) {
    var (m1, use) := MainResult(m, text);
    (m1, if use.Some? then [Use(use.value, m.expected, m.commands)] else [])
  }

  // ---------------------------------------------------------------- the worker

  function Argv(c: Command): seq<string> {
    SimpleLex.Tokens(SimpleLex.Quotes, c.line)
  }

  /** Every command has at least one word. */
  predicate Parsable(commands: seq<Command>) {
    forall i | 0 <= i < |commands| :: Argv(commands[i]) != []
  }

  function Started(commands: seq<Command>): (ps: seq<Process>)
    ensures |ps| == |commands|
    ensures forall i | 0 <= i < |ps| :: ps[i] == Process(commands[i].name, Argv(commands[i]), Running)
  {
    seq(|commands|, i requires 0 <= i < |commands| => Process(commands[i].name, Argv(commands[i]), Running))
  }

  /** The processes still waited for go to the kill list. */
  function Cancelled(w: Worker): Worker {
    if w.timer then w.(timer := false, active := []) else w
  }

  /** A request: a request under way is cancelled; with an empty list the answer is DISABLED, and
      FAIL when the processes cannot be started, for one of them has no command, there is no room,
      or a fork fails (`startable` covers the last two). */
  function WorkerExec(w: Worker, seqNo: nat, startable: bool): (Worker, seq<string>) {
    var w1 := Cancelled(w).(last := seqNo);
    if w.commands == [] then (w1, [ResultText(Result(seqNo, Disabled))])
    else if !startable || !Parsable(w.commands) then (w1.(active := []), [ResultText(Result(seqNo, Failed))])
    else (w1.(timer := true, active := w1.active + Started(w.commands)), [])
  }

  /** One line of the main process; a line that cannot be parsed stops the worker. */
  function WorkerLine(w: Worker, text: string, startable: bool): (Worker, seq<string>) {
    match ParseLine(text)
    case ListClear => (w.(commands := []), [])
    case ListAdd(c) => (w.(commands := w.commands + [c]), [])
    case Exec(_, seqNo) => WorkerExec(w, seqNo, startable)
    case Malformed => (w.(stopped := true), [])
  }

  datatype Summary = AllPassed | SomeFailed | NotFinished

  /** Any finished failure fails; otherwise everything has to finish. */
  function SummaryShort(ps: seq<Process>): (s: Summary)
    ensures s == AllPassed <==> forall p | p in ps :: p.state == Exited(true)
    ensures s == SomeFailed <==> exists p | p in ps :: p.state == Exited(false)
  {
    if ps == [] then AllPassed
    else
      var rest := SummaryShort(ps[1..]);
      assert forall p :: p in ps <==> p == ps[0] || p in ps[1..];
      match ps[0].state
      case Exited(ok) => if ok then rest else SomeFailed
      case Running => if rest == SomeFailed then SomeFailed else NotFinished
  }

  /** The worker's loop looks at the processes of the current request. */
  function WorkerPoll(w: Worker): (Worker, seq<string>) {
    if !w.timer then (w, [])
    else
      match SummaryShort(w.active)
      case NotFinished => (w, [])
      case AllPassed => (w.(timer := false, active := []), [ResultText(Result(w.last, Passed))])
      case SomeFailed => (w.(timer := false, active := []), [ResultText(Result(w.last, Failed))])
  }

  function WorkerTimeout(w: Worker): (Worker, seq<string>) {
    if !w.timer then (w, []) else (w.(timer := false, active := []), [ResultText(Result(w.last, Failed))])
  }

  function ProcessEnded(w: Worker, i: nat, ok: bool): Worker {
    if i < |w.active| && w.active[i].state == Running then w.(active := w.active[i := w.active[i].(state := Exited(ok))]) else w
  }

  /** What the worker does: read a line, find that a process has ended, look at the processes,
      give them up, or stop after a failed system call. */
  datatype Work = ReadLine(text: string, startable: bool) | ProcessEnds(index: nat, ok: bool) | Poll | Timeout | Stop

  datatype Answer = Answer(worker: Worker, work: Work)

  function WorkerStep(w: Worker, work: Work): (Worker, seq<string>) {
    if w.stopped then (w, [])
    else
      match work
      case ReadLine(text, startable) => WorkerLine(w, text, startable)
      case ProcessEnds(i, ok) => (ProcessEnded(w, i, ok), [])
      case Poll => WorkerPoll(w)
      case Timeout => WorkerTimeout(w)
      case Stop => (w.(stopped := true), [])
  }

  // ---------------------------------------------------------------- steps

  datatype Action =
    | Request(timeout: nat)
    | ChangeList(commands: seq<Command>, timeout: nat)
    | ReadResult
    | ReadRequest(startable: bool)
    | Works(work: Work)

  predicate Enabled(s: State, a: Action) {
    match a
    case ReadResult => s.results != []
    case ReadRequest(_) => s.requests != [] && !s.worker.stopped
    case Works(work) => !work.ReadLine?
    case _ => true
  }

  /** The history with the result that has been written for request `last`, if one has. */
  function Recorded(answers: map<nat, Answer>, w: Worker, work: Work, last: nat, texts: seq<string>): map<nat, Answer> {
    if texts == [] then answers else answers[last := Answer(w, work)]
  }

  function Worked(s: State, work: Work): State {
    var (w, texts) := WorkerStep(s.worker, work);
    s.(worker := w, results := s.results + texts, answers := Recorded(s.answers, s.worker, work, w.last, texts))
  }

  function Next(s: State, a: Action): State
    requires Enabled(s, a)
  {
    match a
    case Request(timeout) =>
      var (m, texts) := MainExec(s.main, timeout);
      s.(main := m, requests := s.requests + texts)
    case ChangeList(commands, timeout) =>
      var (m, texts) := MainChangeList(s.main, commands, timeout);
      s.(main := m, requests := s.requests + texts)
    case ReadResult =>
      var (m, uses) := MainLine(s.main, s.results[0]);
      s.(main := m, results := s.results[1..], used := s.used + uses)
    case ReadRequest(startable) =>
      Worked(s.(requests := s.requests[1..]), ReadLine(s.requests[0], startable))
    case Works(work) => Worked(s, work)
  }

  const INITIAL := State(Main(0, false, []), Worker([], 0, false, [], false), [], [], map[], [])

  predicate Run(s: State, run: seq<Action>)
    decreases |run|
  {
    run == [] || (Enabled(s, run[0]) && Run(Next(s, run[0]), run[1..]))
  }

  function EndOf(s: State, run: seq<Action>): State
    requires Run(s, run)
    decreases |run|
  {
    if run == [] then s else EndOf(Next(s, run[0]), run[1..])
  }

  lemma Prepended(s: State, a: Action, t: State, rest: seq<Action>, end: State)
    requires Enabled(s, a) && Next(s, a) == t && Run(t, rest) && EndOf(t, rest) == end
    ensures Run(s, [a] + rest) && EndOf(s, [a] + rest) == end
  {
    assert ([a] + rest)[0] == a && ([a] + rest)[1..] == rest;
  }

  // ---------------------------------------------------------------- what the lines stand for

  function Read(texts: seq<string>): (ls: seq<Line>)
    ensures |ls| == |texts|
  {
    if texts == [] then [] else [ParseLine(texts[0])] + Read(texts[1..])
  }

  /** The worker's list once it has read these lines; None when it does not get through them. */
  function Replay(commands: seq<Command>, ls: seq<Line>): Option<seq<Command>>
    decreases |ls|
  {
    if ls == [] then Some(commands)
    else
      match ls[0]
      case ListClear => Replay([], ls[1..])
      case ListAdd(c) => Replay(commands + [c], ls[1..])
      case Exec(_, _) => Replay(commands, ls[1..])
      case Malformed => None
  }

  /** The list with one more entry. */
  function More(front: Option<seq<Command>>, c: Option<Command>): Option<seq<Command>> {
    if front.None? || c.None? then None else Some(front.value + [c.value])
  }

  /** The list that is left of a list when each entry becomes what `arrives` says. */
  function ArrivedBy(arrives: Command -> Option<Command>, commands: seq<Command>): Option<seq<Command>> {
    if commands == [] then Some([])
    else More(ArrivedBy(arrives, commands[..|commands| - 1]), arrives(commands[|commands| - 1]))
  }

  /** The list the worker gets for a list that is sent. */
  function Arrived(commands: seq<Command>): Option<seq<Command>> {
    ArrivedBy(Arrives, commands)
  }

  /** What the main process reads of these lines. */
  function Answers(texts: seq<string>): (rs: seq<Option<Result>>)
    ensures |rs| == |texts|
  {
    if texts == [] then [] else [ParseResult(texts[0])] + Answers(texts[1..])
  }

  lemma {:induction false} ReadAppend(a: seq<string>, b: seq<string>)
    ensures Read(a + b) == Read(a) + Read(b)
  {
    if a == [] {
      assert a + b == b;
    } else {
      assert (a + b)[1..] == a[1..] + b;
      ReadAppend(a[1..], b);
    }
  }

  lemma ReadMore(texts: seq<string>, text: string, l: Line)
    requires ParseLine(text) == l
    ensures Read(texts + [text]) == Read(texts) + [l]
  {
    ReadAppend(texts, [text]);
    assert [text][1..] == [];
    assert Read([]) == [];
  }

  lemma {:induction false} AnswersAppend(a: seq<string>, b: seq<string>)
    ensures Answers(a + b) == Answers(a) + Answers(b)
  {
    if a == [] {
      assert a + b == b;
    } else {
      assert (a + b)[1..] == a[1..] + b;
      AnswersAppend(a[1..], b);
    }
  }

  lemma AnswersMore(texts: seq<string>, text: string, r: Option<Result>)
    requires ParseResult(text) == r
    ensures Answers(texts + [text]) == Answers(texts) + [r]
  {
    AnswersAppend(texts, [text]);
    assert [text][1..] == [];
    assert Answers([]) == [];
  }

  lemma {:induction false} ReplayAppend(commands: seq<Command>, ls: seq<Line>, more: seq<Line>)
    ensures Replay(commands, ls + more)
            == if Replay(commands, ls).None? then None else Replay(Replay(commands, ls).value, more)
    decreases |ls|
  {
    if ls == [] {
      assert ls + more == more;
    } else {
      assert (ls + more)[1..] == ls[1..] + more;
      match ls[0]
      case ListClear => ReplayAppend([], ls[1..], more);
      case ListAdd(c) => ReplayAppend(commands + [c], ls[1..], more);
      case Exec(_, _) => ReplayAppend(commands, ls[1..], more);
      case Malformed =>
    }
  }

  lemma ReplayOne(commands: seq<Command>, l: Line)
    ensures l.ListClear? ==> Replay(commands, [l]) == Some([])
    ensures l.ListAdd? ==> Replay(commands, [l]) == Some(commands + [l.command])
    ensures l.Exec? ==> Replay(commands, [l]) == Some(commands)
    ensures l.Malformed? ==> Replay(commands, [l]) == None
  {
    assert [l][1..] == [];
  }

  lemma ArrivedMore(front: seq<Command>, c: Command)
    ensures Arrived(front + [c]) == More(Arrived(front), Arrives(c))
  {
    assert (front + [c])[..|front|] == front;
  }

  lemma TextsMore(front: seq<Command>, c: Command, l: Line)
    requires ParseLine(AddText(c)) == l
    ensures Read(ListTexts(front + [c])) == Read(ListTexts(front)) + [l]
  {
    assert ListTexts(front + [c]) == ListTexts(front) + [AddText(c)];
    ReadMore(ListTexts(front), AddText(c), l);
  }

  lemma ReplayMore(before: seq<Command>, ls: seq<Line>, l: Line, c: Option<Command>)
    requires l == if c.None? then Malformed else ListAdd(c.value)
    ensures Replay(before, ls + [l]) == More(Replay(before, ls), c)
  {
    ReplayAppend(before, ls, [l]);
    if Replay(before, ls).Some? {
      ReplayOne(Replay(before, ls).value, l);
    }
  }

  lemma EntryRead(c: Command) returns (l: Line)
    ensures l == ParseLine(AddText(c)) && !l.Exec?
    ensures l == if Arrives(c).None? then Malformed else ListAdd(Arrives(c).value)
  {
    EntryIsOneLine(c);
    l := ParseLine(AddText(c));
  }

  /** Whatever list the worker had, the lines of a list leave it with what that list arrives as. */
  lemma {:induction false} ReplayList(before: seq<Command>, commands: seq<Command>)
    ensures Replay(before, Read(ListTexts(commands))) == Arrived(commands)
    decreases |commands|
  {
    if commands == [] {
      ClearIsRead();
      assert ListTexts(commands) == [] + [CLEAR] && Read([]) == [];
      ReadMore([], CLEAR, ListClear);
      assert [] + [ListClear] == [ListClear];
      ReplayOne(before, ListClear);
    } else {
      var front, c := commands[..|commands| - 1], commands[|commands| - 1];
      assert commands == front + [c];
      ReplayList(before, front);
      var l := EntryRead(c);
      TextsMore(front, c, l);
      ReplayMore(before, Read(ListTexts(front)), l, Arrives(c));
      ArrivedMore(front, c);
    }
  }

  /** Every entry can be sent as it is. */
  predicate AllSendable(commands: seq<Command>) {
    forall i | 0 <= i < |commands| :: Sendable(commands[i].name, commands[i].line)
  }

  lemma MoreIsSame(front: seq<Command>, c: Command, a: Option<seq<Command>>, d: Option<Command>)
    ensures More(a, d) == Some(front + [c]) <==> a == Some(front) && d == Some(c)
  {
    if More(a, d) == Some(front + [c]) {
      assert a.value == (a.value + [d.value])[..|front|] == front;
      assert d.value == (a.value + [d.value])[|front|] == c;
    }
  }

  lemma {:induction false} ArrivedIffAll(arrives: Command -> Option<Command>, sendable: Command -> bool, commands: seq<Command>)
    requires forall c :: arrives(c) == Some(c) <==> sendable(c)
    ensures ArrivedBy(arrives, commands) == Some(commands) <==> forall i | 0 <= i < |commands| :: sendable(commands[i])
  {
    if commands != [] {
      var front, c := commands[..|commands| - 1], commands[|commands| - 1];
      assert commands == front + [c];
      ArrivedIffAll(arrives, sendable, front);
      MoreIsSame(front, c, ArrivedBy(arrives, front), arrives(c));
    }
  }

  /** A list arrives as it is exactly when every entry can be sent as it is. */
  lemma ArrivedIff(commands: seq<Command>)
    ensures Arrived(commands) == Some(commands) <==> AllSendable(commands)
  {
    var sendable := (c: Command) => Sendable(c.name, c.line);
    forall c: Command ensures Arrives(c) == Some(c) <==> sendable(c) {
      EntryRoundTrip(ADD, c.name, c.line);
    }
    ArrivedIffAll(Arrives, sendable, commands);
  }

  // ---------------------------------------------------------------- the invariant

  /** Processes of these commands, one for each. */
  predicate Runs(ps: seq<Process>, commands: seq<Command>) {
    |ps| == |commands|
    && forall i | 0 <= i < |ps| :: ps[i].name == commands[i].name && ps[i].argv == Argv(commands[i])
  }

  /** Processes of the commands the list arrives as. */
  predicate RunOf(ps: seq<Process>, commands: seq<Command>) {
    Arrived(commands).Some? && Runs(ps, Arrived(commands).value)
  }

  /** There are such processes, and every one has exited with 0. */
  predicate Earned(ps: seq<Process>, commands: seq<Command>) {
    RunOf(ps, commands) && ps != [] && forall p | p in ps :: p.state == Exited(true)
  }

  /** Some command cannot be started: it has no word, or the system refused. */
  predicate Unstartable(commands: seq<Command>, startable: bool) {
    !startable || exists c | c in commands :: Argv(c) == []
  }

  /** The result is what a list of these commands deserved when it was written: DISABLED for a
      list that arrives empty; PASS for processes that were looked at and had all exited with 0;
      FAIL for one that had exited with something else, for processes given up when the time was
      over, or for commands that could not be started. */
  predicate Justified(r: Result, a: Answer, commands: seq<Command>) {
    var w := a.worker;
    match r.verdict
    case Disabled => a.work.ReadLine? && Arrived(commands) == Some([])
    case Passed => a.work == Poll && w.timer && w.last == r.seqNo && Earned(w.active, commands)
    case Failed =>
      || (a.work == Poll && w.timer && w.last == r.seqNo && RunOf(w.active, commands)
          && exists p | p in w.active :: p.state == Exited(false))
      || (a.work == Timeout && w.timer && w.last == r.seqNo && RunOf(w.active, commands) && w.active != [])
      || (a.work.ReadLine? && Arrived(commands).Some? && Arrived(commands).value != []
          && Unstartable(Arrived(commands).value, a.work.startable))
  }

  /** Numbers under way to the worker: newer than its last one, in order, up to the latest. */
  predicate RequestsInOrder(ls: seq<Line>, last: nat, expected: nat) {
    && last <= expected
    && (forall i | 0 <= i < |ls| && ls[i].Exec? :: last < ls[i].seqNo <= expected)
    && (forall i, j | 0 <= i < j < |ls| && ls[i].Exec? && ls[j].Exec? :: ls[i].seqNo < ls[j].seqNo)
  }

  /** An awaited request is the last thing under way to the worker, or the last it has read. */
  predicate LatestIsLast(ls: seq<Line>, last: nat, m: Main) {
    m.waiting ==>
      if ls == [] then last == m.expected
      else ls[|ls| - 1].Exec? && ls[|ls| - 1].seqNo == m.expected
  }

  /** The worker's list will be what the present list arrives as, unless the worker stops first. */
  predicate ListOnItsWay(w: Worker, ls: seq<Line>, m: Main) {
    !w.stopped && Replay(w.commands, ls).Some? ==> Replay(w.commands, ls) == Arrived(m.commands)
  }

  /** Every result under way answers a request the worker has read. */
  predicate GoodResults(rs: seq<Option<Result>>, last: nat) {
    forall i | 0 <= i < |rs| :: rs[i].Some? && rs[i].value.seqNo <= last
  }

  /** The latest request, while its result is awaited, is about the present list. */
  predicate Current(w: Worker, rs: seq<Option<Result>>, answers: map<nat, Answer>, m: Main) {
    m.waiting && w.last == m.expected ==>
      && (w.timer ==> RunOf(w.active, m.commands) && w.active != [])
      && (forall i | 0 <= i < |rs| && rs[i].Some? && rs[i].value.seqNo == m.expected ::
            m.expected in answers && Justified(rs[i].value, answers[m.expected], m.commands))
  }

  /** Uses in the order of the requests, none of a request that is still awaited. */
  predicate UsedOnce(used: seq<Use>, m: Main) {
    && (forall i, j | 0 <= i < j < |used| :: used[i].result.seqNo < used[j].result.seqNo)
    && (forall i | 0 <= i < |used| ::
          used[i].result.seqNo < m.expected || (used[i].result.seqNo == m.expected && !m.waiting))
  }

  /** The result used answers the latest request, and is justified for the list. */
  predicate GoodUse(u: Use, answers: map<nat, Answer>) {
    u.result.seqNo == u.latest && u.latest in answers && Justified(u.result, answers[u.latest], u.commands)
  }

  predicate GoodUses(used: seq<Use>, answers: map<nat, Answer>) {
    forall i | 0 <= i < |used| :: GoodUse(used[i], answers)
  }

  /** A result is written for requests that have been read, and ends the waiting. */
  predicate AnsweredBefore(answers: map<nat, Answer>, w: Worker) {
    forall k | k in answers :: k <= w.last && (w.timer ==> k < w.last)
  }

  /** The invariant in terms of what the lines under way stand for. */
  predicate InvOf(w: Worker, ls: seq<Line>, rs: seq<Option<Result>>, answers: map<nat, Answer>, m: Main, used: seq<Use>) {
    && ListOnItsWay(w, ls, m)
    && RequestsInOrder(ls, w.last, m.expected)
    && LatestIsLast(ls, w.last, m)
    && GoodResults(rs, w.last)
    && (!w.timer ==> w.active == [])
    && Current(w, rs, answers, m)
    && UsedOnce(used, m) && GoodUses(used, answers) && AnsweredBefore(answers, w)
  }

  predicate Inv(s: State) {
    InvOf(s.worker, Read(s.requests), Answers(s.results), s.answers, s.main, s.used)
  }

  /** A request at the end of what is under way. */
  lemma RequestAppended(w: Worker, ls: seq<Line>, m: Main, timeout: nat)
    requires ListOnItsWay(w, ls, m) && RequestsInOrder(ls, w.last, m.expected)
    ensures var m', more := m.(expected := m.expected + 1, waiting := true), ls + [Exec(timeout, m.expected + 1)];
            ListOnItsWay(w, more, m') && RequestsInOrder(more, w.last, m'.expected) && LatestIsLast(more, w.last, m')
  {
    var e := Exec(timeout, m.expected + 1);
    ReplayAppend(w.commands, ls, [e]);
    if Replay(w.commands, ls).Some? {
      ReplayOne(Replay(w.commands, ls).value, e);
    }
  }

  lemma TextAppended(texts: seq<string>, timeout: nat, seqNo: nat)
    ensures Read(texts + [ExecText(timeout, seqNo)]) == Read(texts) + [Exec(timeout, seqNo)]
  {
    ExecIsRead(timeout, seqNo);
    ReadMore(texts, ExecText(timeout, seqNo), Exec(timeout, seqNo));
  }

  lemma RequestSent(w: Worker, ls: seq<Line>, rs: seq<Option<Result>>, answers: map<nat, Answer>, m: Main, used: seq<Use>, timeout: nat)
    requires ListOnItsWay(w, ls, m) && RequestsInOrder(ls, w.last, m.expected)
    requires GoodResults(rs, w.last) && (!w.timer ==> w.active == [])
    requires UsedOnce(used, m) && GoodUses(used, answers) && AnsweredBefore(answers, w)
    ensures InvOf(w, ls + [Exec(timeout, m.expected + 1)], rs, answers, m.(expected := m.expected + 1, waiting := true), used)
  {
    RequestAppended(w, ls, m, timeout);
  }

  predicate NoRequest(ls: seq<Line>) {
    forall i | 0 <= i < |ls| :: !ls[i].Exec?
  }

  lemma {:induction false} ListHasNoRequests(commands: seq<Command>)
    ensures NoRequest(Read(ListTexts(commands)))
    decreases |commands|
  {
    if commands == [] {
      ClearIsRead();
      assert ListTexts(commands) == [] + [CLEAR] && Read([]) == [];
      ReadMore([], CLEAR, ListClear);
    } else {
      var front, c := commands[..|commands| - 1], commands[|commands| - 1];
      assert commands == front + [c];
      ListHasNoRequests(front);
      var l := EntryRead(c);
      TextsMore(front, c, l);
    }
  }

  /** The lines of a list at the end of what is under way. */
  lemma ListAppended(s: State, commands: seq<Command>)
    requires Inv(s)
    ensures var ls := Read(s.requests + ListTexts(commands));
            && RequestsInOrder(ls, s.worker.last, s.main.expected)
            && ListOnItsWay(s.worker, ls, s.main.(commands := commands))
  {
    ReadAppend(s.requests, ListTexts(commands));
    ListHasNoRequests(commands);
    ReplayAppend(s.worker.commands, Read(s.requests), Read(ListTexts(commands)));
    if Replay(s.worker.commands, Read(s.requests)).Some? {
      ReplayList(Replay(s.worker.commands, Read(s.requests)).value, commands);
    }
  }

  /** The new list alone, while no result is awaited. */
  lemma NewListKeeps(s: State, m: Main, texts: seq<string>)
    requires Inv(s) && !s.main.waiting && m == s.main.(commands := m.commands)
    requires ListOnItsWay(s.worker, Read(texts), m) && RequestsInOrder(Read(texts), s.worker.last, m.expected)
    ensures Inv(s.(main := m, requests := texts))
  {
  }

  /** The new list and the request that is sent after it. */
  lemma RestartKeeps(s: State, m: Main, texts: seq<string>, timeout: nat, text: string, t: State)
    requires Inv(s) && m == s.main.(commands := m.commands)
    requires ListOnItsWay(s.worker, Read(texts), m) && RequestsInOrder(Read(texts), s.worker.last, m.expected)
    requires Read(texts + [text]) == Read(texts) + [Exec(timeout, m.expected + 1)]
    requires t == s.(main := m.(expected := m.expected + 1, waiting := true), requests := texts + [text])
    ensures Inv(t)
  {
    RequestSent(s.worker, Read(texts), Answers(s.results), s.answers, m, s.used, timeout);
  }

  lemma ChangeListNext(s: State, commands: seq<Command>, timeout: nat)
    ensures var m, texts := s.main.(commands := commands), s.requests + ListTexts(commands);
            Next(s, ChangeList(commands, timeout))
            == if s.main.waiting
               then s.(main := m.(expected := m.expected + 1, waiting := true),
                       requests := texts + [ExecText(timeout, m.expected + 1)])
               else s.(main := m, requests := texts)
  {
    var texts := s.requests + ListTexts(commands);
    assert texts + [ExecText(timeout, s.main.expected + 1)]
           == s.requests + (ListTexts(commands) + [ExecText(timeout, s.main.expected + 1)]);
  }

  lemma RequestNext(s: State, timeout: nat)
    ensures var m := s.main;
            Next(s, Request(timeout))
            == s.(main := m.(expected := m.expected + 1, waiting := true), requests := s.requests + [ExecText(timeout, m.expected + 1)])
  {
  }

  lemma RequestedKeeps(s: State, timeout: nat, text: string, t: State)
    requires Inv(s) && Read(s.requests + [text]) == Read(s.requests) + [Exec(timeout, s.main.expected + 1)]
    requires t == s.(main := s.main.(expected := s.main.expected + 1, waiting := true), requests := s.requests + [text])
    ensures Inv(t)
  {
    RequestSent(s.worker, Read(s.requests), Answers(s.results), s.answers, s.main, s.used, timeout);
  }

  lemma RequestKeeps(s: State, timeout: nat)
    requires Inv(s)
    ensures Inv(Next(s, Request(timeout)))
  {
    RequestNext(s, timeout);
    TextAppended(s.requests, timeout, s.main.expected + 1);
    RequestedKeeps(s, timeout, ExecText(timeout, s.main.expected + 1), Next(s, Request(timeout)));
  }

  /** A new list, with a request under way started anew. */
  lemma ChangeListKeeps(s: State, commands: seq<Command>, timeout: nat)
    requires Inv(s)
    ensures Inv(Next(s, ChangeList(commands, timeout)))
  {
    var m, texts := s.main.(commands := commands), s.requests + ListTexts(commands);
    ListAppended(s, commands);
    ChangeListNext(s, commands, timeout);
    if s.main.waiting {
      TextAppended(texts, timeout, m.expected + 1);
      RestartKeeps(s, m, texts, timeout, ExecText(timeout, m.expected + 1), Next(s, ChangeList(commands, timeout)));
    } else {
      NewListKeeps(s, m, texts);
    }
  }

  /** The first result under way is used or ignored. */
  lemma ResultRead(m: Main, text: string, r: Result)
    requires ParseResult(text) == Some(r)
    ensures MainLine(m, text)
            == if m.waiting && r.seqNo == m.expected then (m.(waiting := false), [Use(r, m.expected, m.commands)]) else (m, [])
  {
  }

  lemma UseIsGood(w: Worker, ls: seq<Line>, rs: seq<Option<Result>>, answers: map<nat, Answer>, m: Main, used: seq<Use>)
    requires rs != [] && InvOf(w, ls, rs, answers, m, used)
    requires m.waiting && rs[0].value.seqNo == m.expected
    ensures GoodUse(Use(rs[0].value, m.expected, m.commands), answers)
  {
    assert rs[0] == Some(rs[0].value) && w.last == m.expected;
  }

  lemma UseAppended(m: Main, used: seq<Use>, u: Use, answers: map<nat, Answer>)
    requires UsedOnce(used, m) && GoodUses(used, answers) && GoodUse(u, answers)
    requires m.waiting && u.result.seqNo == m.expected
    ensures UsedOnce(used + [u], m.(waiting := false)) && GoodUses(used + [u], answers)
  {
  }

  /** One result less under way, and one awaited less when it has been used. */
  lemma ResultGone(w: Worker, ls: seq<Line>, rs: seq<Option<Result>>, answers: map<nat, Answer>, m: Main, waiting: bool)
    requires rs != [] && (waiting ==> m.waiting)
    requires ListOnItsWay(w, ls, m) && LatestIsLast(ls, w.last, m) && GoodResults(rs, w.last) && Current(w, rs, answers, m)
    ensures var m1 := m.(waiting := waiting);
            ListOnItsWay(w, ls, m1) && LatestIsLast(ls, w.last, m1) && GoodResults(rs[1..], w.last) && Current(w, rs[1..], answers, m1)
  {
  }

  lemma ReadResultKeeps(s: State)
    requires Inv(s) && s.results != []
    ensures Inv(Next(s, ReadResult))
  {
    var rs, ls, m := Answers(s.results), Read(s.requests), s.main;
    var r := rs[0].value;
    ResultRead(m, s.results[0], r);
    assert Answers(s.results[1..]) == rs[1..];
    if m.waiting && r.seqNo == m.expected {
      UseIsGood(s.worker, ls, rs, s.answers, m, s.used);
      UseAppended(m, s.used, Use(r, m.expected, m.commands), s.answers);
      ResultGone(s.worker, ls, rs, s.answers, m, false);
    } else {
      assert s.used + [] == s.used && m.(waiting := m.waiting) == m;
      ResultGone(s.worker, ls, rs, s.answers, m, m.waiting);
    }
  }

  // ---------------------------------------------------------------- the worker's steps

  lemma AnswerAppended(texts: seq<string>, r: Result)
    ensures Answers(texts + [ResultText(r)]) == Answers(texts) + [Some(r)]
  {
    ResultIsRead(r);
    AnswersMore(texts, ResultText(r), Some(r));
  }

  /** Reading the first line of what is under way. */
  lemma LineRead(w: Worker, ls: seq<Line>, m: Main)
    requires ls != [] && !w.stopped && ListOnItsWay(w, ls, m)
    requires RequestsInOrder(ls, w.last, m.expected) && LatestIsLast(ls, w.last, m)
    ensures ls[0].ListClear? ==> ListOnItsWay(w.(commands := []), ls[1..], m)
    ensures ls[0].ListAdd? ==> ListOnItsWay(w.(commands := w.commands + [ls[0].command]), ls[1..], m)
    ensures ls[0].Exec? ==> ListOnItsWay(w.(last := ls[0].seqNo), ls[1..], m)
    ensures var last := if ls[0].Exec? then ls[0].seqNo else w.last;
            RequestsInOrder(ls[1..], last, m.expected) && LatestIsLast(ls[1..], last, m)
    ensures ls[0].Exec? && ls[0].seqNo == m.expected && m.waiting ==> Arrived(m.commands) == Some(w.commands)
  {
    var rest := ls[1..];
    if ls[0].Exec? && ls[0].seqNo == m.expected && m.waiting {
      assert rest == [];
      assert Replay(w.commands, ls) == Replay(w.commands, rest) == Some(w.commands);
    }
  }

  /** What a request leaves of the results and of the history: nothing new, or one result. */
  lemma ExecRecorded(s: State, work: Work, r: Option<Result>, t: State)
    requires t == Worked(s, work)
    requires WorkerStep(s.worker, work).1 == if r.None? then [] else [ResultText(r.value)]
    requires r.Some? ==> WorkerStep(s.worker, work).0.last == r.value.seqNo
    ensures Answers(t.results) == if r.None? then Answers(s.results) else Answers(s.results) + [Some(r.value)]
    ensures t.answers == if r.None? then s.answers else s.answers[r.value.seqNo := Answer(s.worker, work)]
  {
    if r.None? {
      assert s.results + [] == s.results;
    } else {
      ResultIsRead(r.value);
      AnswerAppended(s.results, r.value);
    }
  }

  /** What the worker answers to a request at once. */
  function AtOnce(w: Worker, seqNo: nat, startable: bool): Option<Result> {
    if w.commands == [] then Some(Result(seqNo, Disabled))
    else if Unstartable(w.commands, startable) then Some(Result(seqNo, Failed))
    else None
  }

  lemma ParsableIff(commands: seq<Command>)
    ensures Parsable(commands) <==> forall c | c in commands :: Argv(c) != []
  {
    forall i | 0 <= i < |commands| ensures commands[i] in commands {
    }
  }

  lemma ExecIs(w: Worker, seqNo: nat, startable: bool)
    ensures var (t, texts) := WorkerExec(w, seqNo, startable);
            && texts == (if AtOnce(w, seqNo, startable).None? then [] else [ResultText(AtOnce(w, seqNo, startable).value)])
            && t.last == seqNo && t.stopped == w.stopped && t.commands == w.commands
            && (t.timer <==> AtOnce(w, seqNo, startable).None?)
            && t.active == if t.timer then Cancelled(w).active + Started(w.commands) else if w.commands == [] then Cancelled(w).active else []
  {
    ParsableIff(w.commands);
  }

  lemma StartedAreRun(commands: seq<Command>, present: seq<Command>)
    requires Arrived(present) == Some(commands)
    ensures RunOf([] + Started(commands), present)
  {
    assert [] + Started(commands) == Started(commands);
  }
  /** A result written at once is justified by the commands of the worker. */
  lemma AtOnceJustified(w: Worker, text: string, seqNo: nat, startable: bool, present: seq<Command>)
    requires Arrived(present) == Some(w.commands) && AtOnce(w, seqNo, startable).Some?
    ensures Justified(AtOnce(w, seqNo, startable).value, Answer(w, ReadLine(text, startable)), present)
  {
  }

  /** A request that has been read: its result is justified, or the worker's processes are those
      of the present list, when it is the latest. */
  lemma ExecKeeps(w: Worker, rs: seq<Option<Result>>, answers: map<nat, Answer>, m: Main, text: string, seqNo: nat, startable: bool,
                  t: Worker, now: seq<Option<Result>>, known: map<nat, Answer>)
    requires GoodResults(rs, w.last) && (!w.timer ==> w.active == []) && AnsweredBefore(answers, w)
    requires w.last < seqNo <= m.expected && t == WorkerExec(w, seqNo, startable).0
    requires seqNo == m.expected && m.waiting ==> Arrived(m.commands) == Some(w.commands)
    requires var r := AtOnce(w, seqNo, startable);
             if r.None? then now == rs && known == answers
             else now == rs + [r] && known == answers[seqNo := Answer(w, ReadLine(text, startable))]
    ensures GoodResults(now, seqNo) && t.last == seqNo && t.stopped == w.stopped && t.commands == w.commands
    ensures (!t.timer ==> t.active == []) && AnsweredBefore(known, t)
    ensures Current(t, now, known, m)
  {
    ExecIs(w, seqNo, startable);
    if m.waiting && seqNo == m.expected {
      StartedAreRun(w.commands, m.commands);
      if AtOnce(w, seqNo, startable).Some? {
        AtOnceJustified(w, text, seqNo, startable, m.commands);
      }
    }
  }

  /** The uses so far are about earlier requests. */
  lemma UsesKept(used: seq<Use>, answers: map<nat, Answer>, last: nat, seqNo: nat, a: Answer)
    requires GoodUses(used, answers) && last < seqNo && forall k | k in answers :: k <= last
    ensures GoodUses(used, answers[seqNo := a])
  {
    forall i | 0 <= i < |used| ensures GoodUse(used[i], answers[seqNo := a]) {
      assert GoodUse(used[i], answers);
    }
  }

  lemma ReadExecKeeps(s: State, startable: bool, seqNo: nat, t: State)
    requires Inv(s) && s.requests != [] && !s.worker.stopped && t == Next(s, ReadRequest(startable))
    requires ParseLine(s.requests[0]).Exec? && ParseLine(s.requests[0]).seqNo == seqNo
    ensures Inv(t)
  {
    var w, text := s.worker, s.requests[0];
    var r, work := AtOnce(w, seqNo, startable), ReadLine(text, startable);
    assert Read(s.requests)[1..] == Read(t.requests);
    LineRead(w, Read(s.requests), s.main);
    ExecIs(w, seqNo, startable);
    ExecRecorded(s.(requests := s.requests[1..]), work, r, t);
    ExecKeeps(w, Answers(s.results), s.answers, s.main, text, seqNo, startable, t.worker, Answers(t.results), t.answers);
    UsesKept(s.used, s.answers, w.last, seqNo, Answer(w, work));
  }

  lemma ReadRequestKeeps(s: State, startable: bool)
    requires Inv(s) && s.requests != [] && !s.worker.stopped
    ensures Inv(Next(s, ReadRequest(startable)))
  {
    var t := Next(s, ReadRequest(startable));
    assert Read(s.requests)[1..] == Read(t.requests);
    LineRead(s.worker, Read(s.requests), s.main);
    match ParseLine(s.requests[0])
    case Exec(_, seqNo) =>
      ReadExecKeeps(s, startable, seqNo, t);
    case _ =>
      assert t.results == s.results && t.answers == s.answers;
  }

  lemma EndedKeepsRun(w: Worker, i: nat, ok: bool, commands: seq<Command>)
    requires Runs(w.active, commands)
    ensures Runs(ProcessEnded(w, i, ok).active, commands)
  {
  }

  lemma ProcessEndsKeeps(s: State, i: nat, ok: bool)
    requires Inv(s)
    ensures Inv(Worked(s, ProcessEnds(i, ok)))
  {
    var t := Worked(s, ProcessEnds(i, ok));
    assert t.results == s.results;
    if s.worker.timer && s.main.waiting && s.worker.last == s.main.expected {
      EndedKeepsRun(s.worker, i, ok, Arrived(s.main.commands).value);
    }
  }

  lemma VerdictInv(w: Worker, ls: seq<Line>, rs: seq<Option<Result>>, answers: map<nat, Answer>, m: Main, used: seq<Use>, v: Verdict, a: Answer)
    requires InvOf(w, ls, rs, answers, m, used) && w.timer && !w.stopped
    requires m.waiting && w.last == m.expected ==> Justified(Result(w.last, v), a, m.commands)
    ensures InvOf(w.(timer := false, active := []), ls, rs + [Some(Result(w.last, v))], answers[w.last := a], m, used)
  {
    forall i | 0 <= i < |used| ensures GoodUse(used[i], answers[w.last := a]) {
      assert GoodUse(used[i], answers);
    }
    VerdictCurrent(w, rs, answers, m, v, a);
  }

  lemma VerdictCurrent(w: Worker, rs: seq<Option<Result>>, answers: map<nat, Answer>, m: Main, v: Verdict, a: Answer)
    requires w.timer && Current(w, rs, answers, m) && AnsweredBefore(answers, w) && w.last <= m.expected
    requires m.waiting && w.last == m.expected ==> Justified(Result(w.last, v), a, m.commands)
    ensures Current(w.(timer := false, active := []), rs + [Some(Result(w.last, v))], answers[w.last := a], m)
  {
  }

  /** The worker writes its verdict on the current request. */
  lemma VerdictKeeps(s: State, v: Verdict, work: Work, t: State)
    requires Inv(s) && s.worker.timer && !s.worker.stopped && t == Worked(s, work)
    requires WorkerStep(s.worker, work) == (s.worker.(timer := false, active := []), [ResultText(Result(s.worker.last, v))])
    requires s.main.waiting && s.worker.last == s.main.expected ==>
               Justified(Result(s.worker.last, v), Answer(s.worker, work), s.main.commands)
    ensures Inv(t)
  {
    ExecRecorded(s, work, Some(Result(s.worker.last, v)), t);
    VerdictInv(s.worker, Read(s.requests), Answers(s.results), s.answers, s.main, s.used, v, Answer(s.worker, work));
  }

  lemma PollKeeps(s: State)
    requires Inv(s)
    ensures Inv(Worked(s, Poll))
  {
    if !s.worker.stopped && s.worker.timer {
      match SummaryShort(s.worker.active)
      case AllPassed => VerdictKeeps(s, Passed, Poll, Worked(s, Poll));
      case SomeFailed => VerdictKeeps(s, Failed, Poll, Worked(s, Poll));
      case NotFinished => NothingWritten(s, Poll);
    } else {
      NothingWritten(s, Poll);
    }
  }

  lemma NothingWritten(s: State, work: Work)
    requires Inv(s) && WorkerStep(s.worker, work) == (s.worker, [])
    ensures Inv(Worked(s, work))
  {
    assert s.results + [] == s.results;
  }

  lemma TimeoutKeeps(s: State)
    requires Inv(s)
    ensures Inv(Worked(s, Timeout))
  {
    if !s.worker.stopped && s.worker.timer {
      VerdictKeeps(s, Failed, Timeout, Worked(s, Timeout));
    } else {
      NothingWritten(s, Timeout);
    }
  }

  lemma StopKeeps(s: State)
    requires Inv(s)
    ensures Inv(Worked(s, Stop))
  {
    StoppedInv(s.worker, Read(s.requests), Answers(s.results), s.answers, s.main, s.used);
    StopIs(s);
  }

  lemma StopIs(s: State)
    ensures Worked(s, Stop) == s.(worker := s.worker.(stopped := true))
  {
    assert s.results + [] == s.results;
  }

  lemma StoppedInv(w: Worker, ls: seq<Line>, rs: seq<Option<Result>>, answers: map<nat, Answer>, m: Main, used: seq<Use>)
    requires InvOf(w, ls, rs, answers, m, used)
    ensures InvOf(w.(stopped := true), ls, rs, answers, m, used)
  {
  }

  lemma StepKeeps(s: State, a: Action)
    requires Inv(s) && Enabled(s, a)
    ensures Inv(Next(s, a))
  {
    match a
    case Request(timeout) => RequestKeeps(s, timeout);
    case ChangeList(commands, timeout) => ChangeListKeeps(s, commands, timeout);
    case ReadResult => ReadResultKeeps(s);
    case ReadRequest(startable) => ReadRequestKeeps(s, startable);
    case Works(work) =>
      match work
      case ProcessEnds(i, ok) => ProcessEndsKeeps(s, i, ok);
      case Poll => PollKeeps(s);
      case Timeout => TimeoutKeeps(s);
      case Stop => StopKeeps(s);
  }

  lemma {:induction false} RunKeeps(s: State, run: seq<Action>)
    requires Inv(s) && Run(s, run)
    ensures Inv(EndOf(s, run))
    decreases |run|
  {
    if run != [] {
      StepKeeps(s, run[0]);
      RunKeeps(Next(s, run[0]), run[1..]);
    }
  }

  lemma InitialInv()
    ensures Inv(INITIAL)
  {
    assert Read([]) == [];
  }

  /** Uses are in the order of the requests, none twice, each is of the latest request, and its
      verdict is the one the list of that moment deserved when the worker wrote it: the commands
      are those that the list arrives as, which are the ones of the list exactly when every entry
      can be sent as it is. */
  predicate Honest(used: seq<Use>, answers: map<nat, Answer>) {
    && (forall i, j | 0 <= i < j < |used| :: used[i].result.seqNo < used[j].result.seqNo)
    && (forall u | u in used ::
          && u.result.seqNo == u.latest && u.latest in answers
          && Justified(u.result, answers[u.latest], u.commands)
          && (Arrived(u.commands) == Some(u.commands) <==> AllSendable(u.commands)))
  }

  /** Over every run, the results that have been used are honest. */
  lemma ResultsAreHonest(run: seq<Action>)
    requires Run(INITIAL, run)
    ensures Honest(EndOf(INITIAL, run).used, EndOf(INITIAL, run).answers)
  {
    InitialInv();
    RunKeeps(INITIAL, run);
    var s := EndOf(INITIAL, run);
    forall u | u in s.used
      ensures GoodUse(u, s.answers) && (Arrived(u.commands) == Some(u.commands) <==> AllSendable(u.commands))
    {
      ArrivedIff(u.commands);
    }
  }
}
