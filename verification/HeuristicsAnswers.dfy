/**
  Every request is answered: while the main process waits, its request is under way to the
  worker, or the worker runs it, or exactly one result for it is under way back.
*/
module HeuristicsAnswers {
  import opened Tlv
  import opened HeuristicsLines
  import opened Heuristics
  import HeuristicsStream

  // ---------------------------------------------------------------- the invariant

  /** Results under way are for different requests, in order, and none is for a request that the
      worker still runs. */
  predicate OneEach(w: Worker, rs: seq<Option<Result>>) {
    && (forall i | 0 <= i < |rs| :: rs[i].Some? && rs[i].value.seqNo <= w.last && (w.timer ==> rs[i].value.seqNo < w.last))
    && (forall i, j | 0 <= i < j < |rs| :: rs[i].value.seqNo < rs[j].value.seqNo)
  }

  predicate IsFor(r: Option<Result>, seqNo: nat) {
    r.Some? && r.value.seqNo == seqNo
  }

  /** An awaited request that has been read and is not run any more has a result under way. */
  predicate Owed(w: Worker, rs: seq<Option<Result>>, m: Main) {
    m.waiting && !w.stopped && !w.timer && w.last == m.expected ==> exists i :: 0 <= i < |rs| && IsFor(rs[i], m.expected)
  }

  predicate Pending(w: Worker, rs: seq<Option<Result>>, m: Main) {
    OneEach(w, rs) && Owed(w, rs, m)
  }

  predicate AllPending(s: State) {
    Inv(s) && Pending(s.worker, Answers(s.results), s.main)
  }

  lemma RequestPending(w: Worker, rs: seq<Option<Result>>, m: Main, commands: seq<Command>)
    requires Pending(w, rs, m) && w.last <= m.expected
    ensures Pending(w, rs, m.(expected := m.expected + 1, waiting := true, commands := commands))
    ensures !m.waiting ==> Pending(w, rs, m.(commands := commands))
  {
  }

  lemma ReadPending(w: Worker, rs: seq<Option<Result>>, m: Main)
    requires Pending(w, rs, m) && rs != []
    ensures var r := rs[0].value;
            Pending(w, rs[1..], if m.waiting && r.seqNo == m.expected then m.(waiting := false) else m)
  {
    var rest := rs[1..];
    if i :| 0 <= i < |rs| && IsFor(rs[i], m.expected) {
      if i > 0 {
        assert IsFor(rest[i - 1], m.expected);
      }
    }
  }

  /** The result of the request the worker is at, and nothing to run any more. */
  lemma AnsweredPending(w: Worker, rs: seq<Option<Result>>, m: Main, t: Worker, v: Verdict)
    requires OneEach(w, rs) && w.last <= t.last && (w.timer || w.last < t.last) && !t.timer
    ensures Pending(t, rs + [Some(Result(t.last, v))], m)
  {
    var now := rs + [Some(Result(t.last, v))];
    assert now[|rs|].value.seqNo == t.last;
    assert t.last == m.expected ==> IsFor(now[|rs|], m.expected);
  }

  /** A worker that does not answer goes on with what it runs, or runs something new. */
  lemma QuietPending(w: Worker, rs: seq<Option<Result>>, m: Main, t: Worker)
    requires Pending(w, rs, m)
    requires (t.last == w.last && t.timer == w.timer && (w.stopped ==> t.stopped)) || (w.last < t.last && t.timer)
    ensures Pending(t, rs, m)
  {
  }

  // ---------------------------------------------------------------- every step

  lemma SentPending(s: State, a: Action)
    requires AllPending(s) && (a.Request? || a.ChangeList?)
    ensures var t := Next(s, a); Pending(t.worker, Answers(t.results), t.main)
  {
    match a
    case Request(timeout) =>
      RequestNext(s, timeout);
      RequestPending(s.worker, Answers(s.results), s.main, s.main.commands);
    case ChangeList(commands, timeout) =>
      ChangeListNext(s, commands, timeout);
      RequestPending(s.worker, Answers(s.results), s.main, commands);
  }

  lemma ResultPending(s: State)
    requires AllPending(s) && s.results != []
    ensures var t := Next(s, ReadResult); Pending(t.worker, Answers(t.results), t.main)
  {
    var rs := Answers(s.results);
    ResultRead(s.main, s.results[0], rs[0].value);
    assert Answers(s.results[1..]) == rs[1..];
    ReadPending(s.worker, rs, s.main);
  }

  lemma ExecPending(s: State, startable: bool, seqNo: nat, t: State)
    requires AllPending(s) && s.requests != [] && !s.worker.stopped && t == Next(s, ReadRequest(startable))
    requires ParseLine(s.requests[0]).Exec? && ParseLine(s.requests[0]).seqNo == seqNo
    ensures Pending(t.worker, Answers(t.results), t.main)
  {
    var w, rs := s.worker, Answers(s.results);
    var r := AtOnce(w, seqNo, startable);
    assert Read(s.requests)[0] == ParseLine(s.requests[0]);
    ExecIs(w, seqNo, startable);
    ExecRecorded(s.(requests := s.requests[1..]), ReadLine(s.requests[0], startable), r, t);
    if r.Some? {
      AnsweredPending(w, rs, s.main, t.worker, r.value.verdict);
    } else {
      QuietPending(w, rs, s.main, t.worker);
    }
  }

  lemma LinePending(s: State, startable: bool)
    requires AllPending(s) && s.requests != [] && !s.worker.stopped
    ensures var t := Next(s, ReadRequest(startable)); Pending(t.worker, Answers(t.results), t.main)
  {
    var t := Next(s, ReadRequest(startable));
    match ParseLine(s.requests[0])
    case Exec(_, seqNo) => ExecPending(s, startable, seqNo, t);
    case _ =>
      assert t.results == s.results;
      QuietPending(s.worker, Answers(s.results), s.main, t.worker);
  }

  lemma VerdictPending(s: State, v: Verdict, work: Work)
    requires AllPending(s) && s.worker.timer
    requires WorkerStep(s.worker, work) == (s.worker.(timer := false, active := []), [ResultText(Result(s.worker.last, v))])
    ensures var t := Worked(s, work); Pending(t.worker, Answers(t.results), t.main)
  {
    AnswerAppended(s.results, Result(s.worker.last, v));
    AnsweredPending(s.worker, Answers(s.results), s.main, s.worker.(timer := false, active := []), v);
  }

  lemma SilentPending(s: State, work: Work)
    requires AllPending(s) && WorkerStep(s.worker, work).1 == []
    requires var t := WorkerStep(s.worker, work).0;
             t.last == s.worker.last && t.timer == s.worker.timer && (s.worker.stopped ==> t.stopped)
    ensures var t := Worked(s, work); Pending(t.worker, Answers(t.results), t.main)
  {
    assert s.results + [] == s.results;
    QuietPending(s.worker, Answers(s.results), s.main, WorkerStep(s.worker, work).0);
  }

  lemma WorkPending(s: State, work: Work)
    requires AllPending(s) && !work.ReadLine?
    ensures var t := Worked(s, work); Pending(t.worker, Answers(t.results), t.main)
  {
    if s.worker.stopped || !s.worker.timer {
      SilentPending(s, work);
    } else {
      match work
      case Poll =>
        match SummaryShort(s.worker.active) {
          case AllPassed => VerdictPending(s, Passed, Poll);
          case SomeFailed => VerdictPending(s, Failed, Poll);
          case NotFinished => SilentPending(s, Poll);
        }
      case Timeout => VerdictPending(s, Failed, Timeout);
      case _ => SilentPending(s, work);
    }
  }

  lemma StepPending(s: State, a: Action)
    requires AllPending(s) && Enabled(s, a)
    ensures AllPending(Next(s, a))
  {
    StepKeeps(s, a);
    match a
    case ReadResult => ResultPending(s);
    case ReadRequest(startable) => LinePending(s, startable);
    case Works(work) => WorkPending(s, work);
    case _ => SentPending(s, a);
  }

  lemma {:induction false} RunPending(s: State, run: seq<Action>)
    requires AllPending(s) && Run(s, run)
    ensures AllPending(EndOf(s, run))
    decreases |run|
  {
    if run != [] {
      StepPending(s, run[0]);
      RunPending(Next(s, run[0]), run[1..]);
    }
  }

  // ---------------------------------------------------------------- where the awaited request is

  predicate RequestUnderWay(s: State) {
    exists i :: 0 <= i < |s.requests| && ParseLine(s.requests[i]).Exec? && ParseLine(s.requests[i]).seqNo == s.main.expected
  }

  predicate BeingRun(s: State) {
    s.worker.timer && s.worker.last == s.main.expected
  }

  /** Result i under way is for the awaited request. */
  predicate IsAwaited(s: State, i: int) {
    0 <= i < |s.results| && ParseResult(s.results[i]).Some? && ParseResult(s.results[i]).value.seqNo == s.main.expected
  }

  ghost predicate NoResult(s: State) {
    forall i :: !IsAwaited(s, i)
  }

  ghost predicate OneResult(s: State) {
    exists i :: IsAwaited(s, i) && forall j :: IsAwaited(s, j) ==> j == i
  }

  lemma {:induction false} ReadAt(texts: seq<string>, i: nat)
    requires i < |texts|
    ensures Read(texts)[i] == ParseLine(texts[i])
  {
    if i > 0 {
      ReadAt(texts[1..], i - 1);
    }
  }

  lemma {:induction false} AnswersAt(texts: seq<string>, i: nat)
    requires i < |texts|
    ensures Answers(texts)[i] == ParseResult(texts[i])
  {
    if i > 0 {
      AnswersAt(texts[1..], i - 1);
    }
  }

  lemma UnderWayIff(s: State)
    requires Inv(s) && s.main.waiting
    ensures RequestUnderWay(s) <==> s.worker.last < s.main.expected
  {
    var ls := Read(s.requests);
    forall i | 0 <= i < |ls| ensures ls[i] == ParseLine(s.requests[i]) {
      ReadAt(s.requests, i);
    }
    if s.worker.last < s.main.expected {
      assert ParseLine(s.requests[|ls| - 1]) == ls[|ls| - 1];
    }
  }

  lemma ResultsIff(s: State)
    requires AllPending(s)
    ensures NoResult(s) || OneResult(s)
    ensures s.worker.last < s.main.expected || BeingRun(s) ==> NoResult(s)
    ensures s.main.waiting && !s.worker.stopped && !s.worker.timer && s.worker.last == s.main.expected ==> OneResult(s)
  {
    var rs := Answers(s.results);
    forall i | 0 <= i < |rs| ensures IsAwaited(s, i) <==> IsFor(rs[i], s.main.expected) {
      AnswersAt(s.results, i);
    }
    forall i, j | IsAwaited(s, i) && IsAwaited(s, j) ensures i == j {
    }
    if exists i :: 0 <= i < |rs| && IsFor(rs[i], s.main.expected) {
      var i :| 0 <= i < |rs| && IsFor(rs[i], s.main.expected);
      assert IsAwaited(s, i);
    }
  }

  /** Exactly one of three. */
  ghost predicate Somewhere(s: State) {
    || (RequestUnderWay(s) && !BeingRun(s) && NoResult(s))
    || (!RequestUnderWay(s) && BeingRun(s) && NoResult(s))
    || (!RequestUnderWay(s) && !BeingRun(s) && OneResult(s))
  }

  lemma PendingIsSomewhere(s: State)
    requires AllPending(s) && s.main.waiting && !s.worker.stopped
    ensures Somewhere(s)
  {
    UnderWayIff(s);
    ResultsIff(s);
  }

  lemma InitialPending()
    ensures AllPending(INITIAL)
  {
    InitialInv();
  }

  /** Over every run: while a result is awaited and the worker has not stopped, the request is
      under way, or it is being run, or exactly one result for it is under way. */
  lemma AwaitedIsSomewhere(run: seq<Action>)
    requires Run(INITIAL, run)
    ensures var s := EndOf(INITIAL, run); s.main.waiting && !s.worker.stopped ==> Somewhere(s)
  {
    InitialPending();
    RunPending(INITIAL, run);
    var s := EndOf(INITIAL, run);
    if s.main.waiting && !s.worker.stopped {
      PendingIsSomewhere(s);
    }
  }

  /** Whatever ends the running of an awaited request, other than a new request or the end of the
      worker, puts its result under way. */
  lemma RunningEndsWithResult(run: seq<Action>, a: Action)
    requires Run(INITIAL, run) && Enabled(EndOf(INITIAL, run), a)
    requires EndOf(INITIAL, run).main.waiting && BeingRun(EndOf(INITIAL, run))
    ensures var s := EndOf(INITIAL, run);
            var t := Next(s, a);
            t.main.expected == s.main.expected && !t.worker.stopped && !BeingRun(t) ==> t.main.waiting && OneResult(t)
  {
    InitialPending();
    RunPending(INITIAL, run);
    var s := EndOf(INITIAL, run);
    var t := Next(s, a);
    StepPending(s, a);
    UnderWayIff(s);
    ResultsIff(s);
    if t.main.expected == s.main.expected && !t.worker.stopped && !BeingRun(t) {
      StillAwaited(s, a);
      ResultsIff(t);
    }
  }

  lemma SendsAnew(s: State, a: Action)
    requires s.main.waiting && (a.Request? || a.ChangeList?)
    ensures Next(s, a).main.expected == s.main.expected + 1
  {
    match a
    case Request(timeout) => RequestNext(s, timeout);
    case ChangeList(commands, timeout) => ChangeListNext(s, commands, timeout);
  }

  lemma OldResultRead(s: State)
    requires AllPending(s) && s.results != [] && BeingRun(s)
    ensures Next(s, ReadResult).main == s.main && Next(s, ReadResult).worker == s.worker
  {
    ResultRead(s.main, s.results[0], Answers(s.results)[0].value);
  }

  lemma LineChanges(w: Worker, text: string, startable: bool)
    requires !ParseLine(text).Exec?
    ensures WorkerLine(w, text, startable).0.last == w.last && WorkerLine(w, text, startable).0.timer == w.timer
  {
  }

  lemma OtherLineRead(s: State, startable: bool)
    requires AllPending(s) && s.requests != [] && !s.worker.stopped && BeingRun(s)
    ensures var t := Next(s, ReadRequest(startable));
            t.main == s.main && t.worker.last == s.worker.last && t.worker.timer == s.worker.timer
  {
    assert Read(s.requests)[0] == ParseLine(s.requests[0]);
    LineChanges(s.worker, s.requests[0], startable);
  }

  lemma WorkKeepsLast(w: Worker, work: Work)
    requires !work.ReadLine?
    ensures WorkerStep(w, work).0.last == w.last
  {
  }

  /** The awaited request stays awaited while it is run, and is the last one the worker has read. */
  lemma StillAwaited(s: State, a: Action)
    requires AllPending(s) && Enabled(s, a) && s.main.waiting && BeingRun(s) && Next(s, a).main.expected == s.main.expected
    ensures Next(s, a).main.waiting && Next(s, a).worker.last == s.worker.last
  {
    match a
    case ReadResult => OldResultRead(s);
    case ReadRequest(startable) => OtherLineRead(s, startable);
    case Works(work) => WorkKeepsLast(s.worker, work);
    case _ => SendsAnew(s, a);
  }

  // ---------------------------------------------------------------- an answer can always come

  /** Looking at processes of which one has failed, or none is left running, decides. */
  lemma DecidedIsAnswered(s: State)
    requires s.worker.timer && !s.worker.stopped
    requires (exists p | p in s.worker.active :: p.state == Exited(false)) || (forall p | p in s.worker.active :: p.state == Exited(true))
    ensures var t := Next(s, Works(Poll)); !t.worker.timer && |t.results| == |s.results| + 1 && s.results <= t.results
  {
    assert SummaryShort(s.worker.active) != NotFinished;
  }

  lemma TimeIsUp(s: State)
    requires s.worker.timer && !s.worker.stopped
    ensures var t := Next(s, Works(Timeout));
            t == s.(worker := t.worker, results := t.results, answers := t.answers) && !t.worker.timer && !t.worker.stopped
  {
  }

  lemma LineIsRead(s: State)
    requires s.requests != [] && !s.worker.stopped
    ensures Enabled(s, ReadRequest(true)) && Next(s, ReadRequest(true)).main == s.main
    ensures Next(s, ReadRequest(true)).requests == s.requests[1..]
  {
  }

  lemma ResultIsTaken(s: State)
    requires AllPending(s) && s.results != [] && s.main.waiting
    ensures var t := Next(s, ReadResult);
            && t.worker == s.worker && t.requests == s.requests && t.results == s.results[1..]
            && (t.main == s.main || t.main == s.main.(waiting := false))
  {
    ResultRead(s.main, s.results[0], Answers(s.results)[0].value);
  }

  /** No new request and no failed system call. */
  predicate Undisturbed(a: Action) {
    a.ReadResult? || a == ReadRequest(true) || a == Works(Timeout)
  }

  /** From wherever the awaited request is, reading what is under way and letting its time run out
      ends the waiting, unless the worker stops at a line it cannot parse. */
  lemma {:induction false} AnswerCanCome(s: State) returns (run: seq<Action>, t: State)
    requires AllPending(s) && s.main.waiting && !s.worker.stopped
    ensures Run(s, run) && EndOf(s, run) == t && (!t.main.waiting || t.worker.stopped)
    ensures forall a | a in run :: Undisturbed(a)
    decreases |s.requests|, s.worker.timer, |s.results|
  {
    var a := if s.requests != [] then ReadRequest(true) else if s.worker.timer then Works(Timeout) else ReadResult;
    if s.requests != [] {
      LineIsRead(s);
    } else if s.worker.timer {
      TimeIsUp(s);
    } else {
      PendingIsSomewhere(s);
      ResultIsTaken(s);
    }
    var u := Next(s, a);
    StepPending(s, a);
    run, t := [], u;
    if u.main.waiting && !u.worker.stopped {
      run, t := AnswerCanCome(u);
    }
    Prepended(s, a, u, run, t);
    run := [a] + run;
  }

  // ---------------------------------------------------------------- over cut text

  lemma NoTextNoLines(p: HeuristicsStream.Pipe, ls: seq<string>)
    requires HeuristicsStream.Carries(p, ls) && p.held == "" && p.sent == ""
    ensures ls == []
  {
    SomeText(ls);
  }

  lemma SomeText(ls: seq<string>)
    ensures Joined(ls) == "" <==> ls == []
  {
  }

  /** However the text on the pipes is cut: when a result is awaited, the worker has not stopped
      and nothing is under way in either direction, the worker runs the awaited request. */
  lemma EmptyPipesMeanRunning(moves: seq<HeuristicsStream.Move>)
    requires HeuristicsStream.Moves(HeuristicsStream.START, moves)
    ensures var s := HeuristicsStream.MovedBy(HeuristicsStream.START, moves);
            s.main.waiting && !s.worker.stopped
            && s.requests == HeuristicsStream.Pipe("", "") && s.results == HeuristicsStream.Pipe("", "") ==>
              s.worker.timer && s.worker.last == s.main.expected
  {
    var s := HeuristicsStream.MovedBy(HeuristicsStream.START, moves);
    HeuristicsStream.BothStart();
    var run := HeuristicsStream.CutPipesAreLines(HeuristicsStream.START, INITIAL, moves);
    var t := EndOf(INITIAL, run);
    AwaitedIsSomewhere(run);
    if s.main.waiting && !s.worker.stopped && s.requests == HeuristicsStream.Pipe("", "") && s.results == HeuristicsStream.Pipe("", "") {
      NoTextNoLines(s.requests, t.requests);
      NoTextNoLines(s.results, t.results);
    }
  }
}
