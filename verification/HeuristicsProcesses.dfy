/**
  The two ends of the heuristics pipes as they run: instances changed in place, proved against
  the functions of `Heuristics`. The worker's processes are those of its process list, so
  whether they can be started follows from the room in the list, their commands and the forks.
*/
module HeuristicsProcesses {
  import opened Tlv
  import opened HeuristicsLines
  import opened Heuristics
  import P = ProcessList

  /** The main process; `out` is what it has queued for the worker. */
  class HeuristicsInstance {
    var expected: nat
    var waiting: bool
    var commands: seq<Command>
    var out: seq<string>

    function View(): Main
      reads this
    {
      Main(expected, waiting, commands)
    }

    constructor ()
      ensures View() == INITIAL.main && out == []
    {
      expected, waiting, commands, out := 0, false, [], [];
    }

    method ExecHeuristics(timeout: nat)
      modifies this
      ensures var r := MainExec(old(View()), timeout); View() == r.0 && out == old(out) + r.1
    {
      expected := expected + 1;
      waiting := true;
      out := out + [ExecText(timeout, expected)];
    }

    method WriteExecList(newList: seq<Command>)
      modifies this`out
      ensures out == old(out) + ListTexts(newList)
    {
      out := out + [CLEAR];
      for i := 0 to |newList|
        invariant out == old(out) + ListTexts(newList)[..i + 1]
      {
        out := out + [AddText(newList[i])];
        assert ListTexts(newList)[..i + 2] == ListTexts(newList)[..i + 1] + [AddText(newList[i])];
      }
      assert ListTexts(newList)[..|newList| + 1] == ListTexts(newList);
    }

    method ChangeExecList(newList: seq<Command>, timeout: nat)
      modifies this
      ensures var r := MainChangeList(old(View()), newList, timeout); View() == r.0 && out == old(out) + r.1
    {
      WriteExecList(newList);
      commands := newList;
      if waiting {
        ExecHeuristics(timeout);
      }
    }

    /** A line of the worker: the result, when it is passed on to the notifiers. */
    method ProcessExecResult(text: string) returns (notified: Option<Result>)
      modifies this`waiting
      ensures (View(), notified) == MainResult(old(View()), text)
    {
      notified := None;
      var r := ParseResult(text);
      if r.None? || !waiting || r.value.seqNo != expected {
        return;
      }
      waiting := false;
      notified := r;
    }
  }

  /** A started process as the request protocol sees it. */
  function Shown(e: P.Entry): Process {
    Process(e.name, e.argv, if e.state == P.Finished then Exited(e.status == P.ExitStatus(0)) else Running)
  }

  function ShownAll(es: seq<P.Entry>): (ps: seq<Process>)
    ensures |ps| == |es| && forall i | 0 <= i < |ps| :: ps[i] == Shown(es[i])
  {
    seq(|es|, i requires 0 <= i < |es| => Shown(es[i]))
  }

  function NewEntries(commands: seq<Command>): (es: seq<P.Entry>)
    ensures |es| == |commands| && forall i | 0 <= i < |es| :: es[i] == P.NewEntry(commands[i].name, commands[i].line)
  {
    seq(|commands|, i requires 0 <= i < |commands| => P.NewEntry(commands[i].name, commands[i].line))
  }

  predicate OnlyEnds(works: seq<Work>) {
    forall i | 0 <= i < |works| :: works[i].ProcessEnds? || works[i].Stop?
  }

  /** A series of steps and what they write. */
  function StepsBy(step: (Worker, Work) -> (Worker, seq<string>), w: Worker, works: seq<Work>): (Worker, seq<string>) {
    if works == [] then (w, [])
    else
      var before := StepsBy(step, w, works[..|works| - 1]);
      var now := step(before.0, works[|works| - 1]);
      (now.0, before.1 + now.1)
  }

  function WorkerSteps(w: Worker, works: seq<Work>): (Worker, seq<string>) {
    StepsBy(WorkerStep, w, works)
  }

  lemma OneMoreStep(step: (Worker, Work) -> (Worker, seq<string>), w: Worker, works: seq<Work>, work: Work)
    ensures var before := StepsBy(step, w, works);
            var now := step(before.0, work);
            StepsBy(step, w, works + [work]) == (now.0, before.1 + now.1)
  {
    assert (works + [work])[..|works|] == works;
  }

  lemma {:induction false} StepsAppend(step: (Worker, Work) -> (Worker, seq<string>), w: Worker, works: seq<Work>, more: seq<Work>)
    ensures var before := StepsBy(step, w, works);
            var after := StepsBy(step, before.0, more);
            StepsBy(step, w, works + more) == (after.0, before.1 + after.1)
    decreases |more|
  {
    var before := StepsBy(step, w, works);
    if more == [] {
      assert works + more == works && before.1 + [] == before.1;
    } else {
      var front, last := more[..|more| - 1], more[|more| - 1];
      StepsAppend(step, w, works, front);
      assert works + more == (works + front) + [last];
      OneMoreStep(step, w, works + front, last);
      var mid := StepsBy(step, before.0, front);
      var now := step(mid.0, last);
      assert before.1 + mid.1 + now.1 == before.1 + (mid.1 + now.1);
    }
  }

  lemma StepsJoined(step: (Worker, Work) -> (Worker, seq<string>), w: Worker, texts: seq<string>, works: seq<Work>,
                    w1: Worker, texts1: seq<string>, more: seq<Work>)
    requires w1 == StepsBy(step, w, works).0 && texts1 == texts + StepsBy(step, w, works).1
    ensures StepsBy(step, w, works + more).0 == StepsBy(step, w1, more).0
    ensures texts + StepsBy(step, w, works + more).1 == texts1 + StepsBy(step, w1, more).1
  {
    StepsAppend(step, w, works, more);
    Joined3(texts, StepsBy(step, w, works).1, StepsBy(step, w1, more).1);
  }

  lemma StepJoined(step: (Worker, Work) -> (Worker, seq<string>), w: Worker, texts: seq<string>, works: seq<Work>,
                   w1: Worker, texts1: seq<string>, work: Work)
    requires w1 == StepsBy(step, w, works).0 && texts1 == texts + StepsBy(step, w, works).1
    ensures StepsBy(step, w, works + [work]).0 == step(w1, work).0
    ensures texts + StepsBy(step, w, works + [work]).1 == texts1 + step(w1, work).1
  {
    OneMoreStep(step, w, works, work);
    Joined3(texts, StepsBy(step, w, works).1, step(w1, work).1);
  }

  lemma Joined3(a: seq<string>, b: seq<string>, c: seq<string>)
    ensures a + (b + c) == (a + b) + c
  {
  }

  /** The worker; `out` is what it has written to the main process. */
  class WorkerInstance {
    const plist: P.Processes
    var commands: seq<Command>
    var last: nat
    var timer: bool
    var stopped: bool
    var out: seq<string>

    predicate Valid()
      reads this, plist
    {
      && plist.Valid()
      && (!timer ==> plist.active == [])
      && forall e | e in plist.active :: e.state != P.Initialized
    }

    function View(): Worker
      reads this, plist
    {
      Worker(commands, last, timer, ShownAll(plist.active), stopped)
    }

    constructor (maxProcesses: nat)
      ensures Valid() && View() == INITIAL.worker && out == []
      ensures fresh(plist) && plist.maxEntries == maxProcesses && plist.toKill == []
    {
      plist := new P.Processes(maxProcesses);
      commands, last, timer, stopped, out := [], 0, false, false, [];
    }

    /** The entries in use once the processes of the present request are on the kill list. */
    function AfterCancel(): nat
      reads this, plist
    {
      |plist.toKill| + |P.WhereRunning(plist.active, true)|
    }

    /** Is there room for a process for every command? */
    predicate Room()
      reads this, plist
    {
      (if timer then AfterCancel() else plist.entries) + |commands| <= plist.maxEntries
    }

    /** Give up the processes that are waited for. */
    method Cancel()
      requires plist.Valid()
      modifies this`timer, plist
      ensures plist.Valid() && !timer && plist.active == [] && plist.entries == old(AfterCancel())
    {
      plist.MoveActiveToKillList();
      timer := false;
    }

    /** Add a process for every command; stops at the first that does not fit or has no word. */
    method AddAll() returns (ok: bool)
      requires plist.Valid() && plist.active == []
      modifies plist
      ensures plist.Valid()
      ensures ok <==> old(plist.entries) + |commands| <= plist.maxEntries && Parsable(commands)
      ensures ok ==> plist.active == NewEntries(commands)
    {
      for i := 0 to |commands|
        invariant plist.Valid() && plist.entries == old(plist.entries) + i
        invariant plist.active == NewEntries(commands)[..i]
        invariant forall k | 0 <= k < i :: Argv(commands[k]) != []
        invariant i > 0 ==> plist.entries <= plist.maxEntries
      {
        ok := plist.Add(commands[i].name, commands[i].line);
        if !ok {
          return;
        }
        assert NewEntries(commands)[..i + 1] == NewEntries(commands)[..i] + [P.NewEntry(commands[i].name, commands[i].line)];
      }
      assert NewEntries(commands)[..|commands|] == NewEntries(commands);
      ok := true;
    }

    /** Start the processes that have been added. */
    method StartAll(forks: nat -> int) returns (ok: bool)
      requires plist.Valid() && plist.active == NewEntries(commands)
      modifies plist
      ensures plist.Valid()
      ensures ok <==> Forked(|commands|, forks)
      ensures ok ==> ShownAll(plist.active) == Started(commands) && forall e | e in plist.active :: e.state != P.Initialized
    {
      ghost var es := plist.active;
      ok := plist.ExecInitialized(forks);
      ForkedIff(commands, forks);
      if ok {
        NewStarted(commands, forks);
      }
    }

    /** An exec request; fork i, if it comes to it, answers forks(i). */
    method ProcessExec(seqNo: nat, forks: nat -> int)
      requires Valid()
      modifies this, plist
      ensures Valid()
      ensures var r := WorkerExec(old(View()), seqNo, Forked(|old(commands)|, forks) && old(Room()));
              View() == r.0 && out == old(out) + r.1
    {
      if timer {
        Cancel();
      }
      last := seqNo;
      if commands == [] {
        out := out + [ResultText(Result(last, Disabled))];
        return;
      }
      var ok := AddAll();
      if !ok {
        GiveUp();
        return;
      }
      ok := StartAll(forks);
      if !ok {
        GiveUp();
        return;
      }
      timer := true;
    }

    /** The processes of the request are given up and its result is FAIL. */
    method GiveUp()
      requires plist.Valid()
      modifies this`timer, this`out, plist
      ensures plist.Valid() && !timer && plist.active == []
      ensures out == old(out) + [ResultText(Result(last, Failed))]
    {
      Cancel();
      out := out + [ResultText(Result(last, Failed))];
    }

    /** One line of the main process; a line that cannot be parsed stops the worker. */
    method ProcessOneLine(text: string, forks: nat -> int)
      requires Valid() && !stopped
      modifies this, plist
      ensures Valid()
      ensures var r := WorkerLine(old(View()), text, Forked(|old(commands)|, forks) && old(Room()));
              View() == r.0 && out == old(out) + r.1
    {
      match ParseLine(text) {
        case ListClear => commands := [];
        case ListAdd(c) => commands := commands + [c];
        case Exec(_, seqNo) => ProcessExec(seqNo, forks);
        case Malformed => stopped := true;
      }
    }

    /** Every complete line that has arrived, until one stops the worker. */
    method ReadLines(texts: seq<string>, forks: nat -> nat -> int) returns (ghost starts: seq<bool>)
      requires Valid() && !stopped
      modifies this, plist
      ensures Valid() && |starts| == |texts|
      ensures Has(old(View()), old(out), Reads(texts, starts))
    {
      starts := [];
      StepsStart(WorkerStep, View(), out);
      for i := 0 to |texts|
        invariant Valid() && |starts| == i && !stopped
        invariant Has(old(View()), old(out), Reads(texts[..i], starts))
      {
        ghost var start := Forked(|commands|, forks(i)) && Room();
        ghost var w, texts0, before := View(), out, Reads(texts[..i], starts);
        ProcessOneLine(texts[i], forks(i));
        HasMore(old(View()), old(out), before, w, texts0, ReadLine(texts[i], start));
        ReadsMore(texts, i, starts, start);
        starts := starts + [start];
        if stopped {
          ghost var rest := seq(|texts| - i - 1, _ => true);
          HasStopped(old(View()), old(out), Reads(texts[..i + 1], starts), Reads(texts[i + 1..], rest));
          ReadsSplit(texts, i + 1, starts, rest);
          starts := starts + rest;
          return;
        }
      }
      assert texts[..|texts|] == texts;
    }

    /** The worker has taken these steps since it was w and had written texts. */
    predicate Has(w: Worker, texts: seq<string>, works: seq<Work>)
      reads this, plist
    {
      View() == WorkerSteps(w, works).0 && out == texts + WorkerSteps(w, works).1
    }

    lemma HasMore(w: Worker, texts: seq<string>, works: seq<Work>, w1: Worker, texts1: seq<string>, work: Work)
      requires w1 == WorkerSteps(w, works).0 && texts1 == texts + WorkerSteps(w, works).1
      requires View() == WorkerStep(w1, work).0 && out == texts1 + WorkerStep(w1, work).1
      ensures Has(w, texts, works + [work])
    {
      StepJoined(WorkerStep, w, texts, works, w1, texts1, work);
    }

    lemma HasStopped(w: Worker, texts: seq<string>, works: seq<Work>, more: seq<Work>)
      requires stopped && Has(w, texts, works)
      ensures Has(w, texts, works + more)
    {
      StoppedStays(WorkerStep, WorkerSteps(w, works).0, more);
      StepsAppend(WorkerStep, w, works, more);
    }

    /** Wait for processes without blocking; a failed waitpid stops the worker. */
    method Collect(waits: int -> P.WaitAnswer) returns (ghost ended: seq<Work>)
      requires Valid() && !stopped
      modifies this`stopped, plist
      ensures Valid() && OnlyEnds(ended) && (stopped ==> ended != [])
      ensures Has(old(View()), out, ended)
      ensures stopped <==> P.AnyWaitFails(old(plist.active), waits) || P.AnyWaitFails(old(plist.toKill), waits)
      ensures ended == EndsSeen(old(plist.active), waits) + if stopped then [Stop] else []
      ensures plist.active == P.LookedAll(old(plist.active), waits)
    {
      ghost var w, before := View(), plist.active;
      var ok := plist.Waitpid(waits);
      LookedIsWaited(before, waits);
      assert View() == w.(active := ShownAll(P.LookedAll(before, waits)));
      ended := NoteEnds(ok, w, before, waits);
    }

    /** The processes have been waited for; an error stops the worker. */
    method NoteEnds(ok: bool, ghost w: Worker, ghost before: seq<P.Entry>, ghost waits: int -> P.WaitAnswer) returns (ghost ended: seq<Work>)
      requires !stopped && !w.stopped && w.active == ShownAll(before) && Waited(before, P.LookedAll(before, waits))
      requires View() == w.(active := ShownAll(P.LookedAll(before, waits)))
      modifies this`stopped
      ensures stopped == !ok && Has(w, out, ended) && OnlyEnds(ended) && (stopped ==> ended != [])
      ensures ended == EndsSeen(before, waits) + if stopped then [Stop] else []
    {
      ended := EndsSeen(before, waits);
      Collected(w, before, P.LookedAll(before, waits));
      assert ended + [] == ended && out + [] == out;
      if !ok {
        OneMoreStep(WorkerStep, w, ended, Stop);
        ended := ended + [Stop];
        stopped := true;
      }
    }

    /** Look at the processes of the request and decide when that is possible. */
    method PollOnce()
      requires Valid() && !stopped
      modifies this, plist
      ensures Valid() && !stopped
      ensures var r := WorkerPoll(old(View())); View() == r.0 && out == old(out) + r.1
      ensures plist.active == [] || plist.active == old(plist.active)
    {
      if !timer {
        return;
      }
      SummaryShown(plist.active);
      var summary := plist.SummaryShort();
      match summary {
        case NotFinished =>
        case AllPassed => Finish(Passed);
        case SomeFailed => Finish(Failed);
      }
    }

    /** The result of the request is written and its processes are waited for no more. */
    method Finish(v: Verdict)
      requires plist.Valid()
      modifies this`timer, this`out, plist
      ensures plist.Valid() && !timer && plist.active == []
      ensures out == old(out) + [ResultText(Result(last, v))]
    {
      out := out + [ResultText(Result(last, v))];
      Cancel();
    }

    /** The timer of the request has expired. */
    method ExecTimeout()
      requires Valid() && timer && !stopped
      modifies this, plist
      ensures Valid() && !stopped
      ensures var r := WorkerTimeout(old(View())); View() == r.0 && out == old(out) + r.1
      ensures plist.active == []
    {
      GiveUp();
    }

    /** The kill list timer has expired: the next signal for every process on the kill list. */
    method KillListTimer(round: P.Round) returns (ghost ended: seq<Work>)
      requires Valid() && !stopped
      modifies this`stopped, plist
      ensures Valid() && OnlyEnds(ended)
      ensures Has(old(View()), out, ended)
      ensures ended == EndsSeen(old(plist.active), round.waits) + if stopped then [Stop] else []
      ensures plist.active == P.LookedAll(old(plist.active), round.waits)
    {
      ghost var w, before := View(), plist.active;
      var ok := plist.ProcessKillList(round);
      LookedIsWaited(before, round.waits);
      assert View() == w.(active := ShownAll(P.LookedAll(before, round.waits)));
      ended := NoteEnds(ok, w, before, round.waits);
    }

    lemma HasAppended(w: Worker, texts: seq<string>, works: seq<Work>, w1: Worker, texts1: seq<string>, more: seq<Work>)
      requires w1 == WorkerSteps(w, works).0 && texts1 == texts + WorkerSteps(w, works).1 && Has(w1, texts1, more)
      ensures Has(w, texts, works + more)
    {
      StepsJoined(WorkerStep, w, texts, works, w1, texts1, more);
    }

    /** The lines that have arrived, and the processes that have ended since the last turn. */
    method ReadAndCollect(texts: seq<string>, forks: nat -> nat -> int, waits: int -> P.WaitAnswer)
      returns (ghost starts: seq<bool>, ghost ended: seq<Work>)
      requires Valid() && !stopped
      modifies this, plist
      ensures Valid() && |starts| == |texts| && OnlyEnds(ended)
      ensures Has(old(View()), old(out), Reads(texts, starts) + ended)
      ensures !stopped ==> NoneMissed(plist.active, waits)
    {
      starts := ReadLines(texts, forks);
      ended := [];
      assert Reads(texts, starts) + [] == Reads(texts, starts);
      if !stopped {
        ghost var w, written := View(), out;
        ghost var es := plist.active;
        ended := Collect(waits);
        if !stopped {
          LookedMissesNone(es, waits);
        }
        HasAppended(old(View()), old(out), Reads(texts, starts), w, written, ended);
      }
    }

    /** The processes of the request, and its timer when that has expired. */
    method DecideOrExpire(expired: bool)
      requires Valid() && !stopped
      modifies this, plist
      ensures Valid() && !stopped
      ensures Has(old(View()), old(out), [Poll] + Expired(expired))
      ensures plist.active == [] || plist.active == old(plist.active)
    {
      ghost var w, written := View(), out;
      StepsStart(WorkerStep, w, written);
      PollOnce();
      PollStep(w);
      HasMore(w, written, [], w, written, Poll);
      assert [] + [Poll] == [Poll] && [Poll] + [] == [Poll];
      if expired {
        ghost var w1, written1 := View(), out;
        if timer {
          ExecTimeout();
        }
        TimeoutStep(w1);
        HasMore(w, written, [Poll], w1, written1, Timeout);
      }
    }

    /** The same, and the kill list timer when that has expired. */
    method DecideAndExpire(expired: bool, killExpired: bool, round: P.Round, ghost waits: int -> P.WaitAnswer) returns (ghost later: seq<Work>)
      requires Valid() && !stopped && NoneMissed(plist.active, waits)
      modifies this, plist
      ensures Valid() && OnlyEnds(later) && NoneMissed(plist.active, waits)
      ensures Has(old(View()), old(out), [Poll] + Expired(expired) + later)
    {
      ghost var w, written := View(), out;
      DecideOrExpire(expired);
      later := [];
      assert [Poll] + Expired(expired) + [] == [Poll] + Expired(expired);
      if killExpired {
        ghost var w2, written2 := View(), out;
        LookedAgain(plist.active, round.waits, waits);
        later := KillListTimer(round);
        HasAppended(w, written, [Poll] + Expired(expired), w2, written2, later);
      }
    }

    /** One turn of the worker's loop: the lines that have arrived, the processes that have ended,
        the verdict, the timers. What it does is a series of the steps of the protocol, in this
        order; an error stops the worker where it is. */
    method PollAll(texts: seq<string>, forks: nat -> nat -> int, waits: int -> P.WaitAnswer, expired: bool, killExpired: bool, round: P.Round)
      returns (ghost starts: seq<bool>, ghost ended: seq<Work>, ghost later: seq<Work>)
      requires Valid() && !stopped
      modifies this, plist
      ensures Valid() && |starts| == |texts| && OnlyEnds(ended) && OnlyEnds(later)
      ensures Has(old(View()), old(out), (Reads(texts, starts) + ended) + ([Poll] + Expired(expired) + later))
      ensures !stopped ==> NoneMissed(plist.active, waits)
    {
      starts, ended := ReadAndCollect(texts, forks, waits);
      later := [];
      if stopped {
        HasStopped(old(View()), old(out), Reads(texts, starts) + ended, [Poll] + Expired(expired) + later);
      } else {
        ghost var w, written := View(), out;
        later := DecideAndExpire(expired, killExpired, round, waits);
        HasAppended(old(View()), old(out), Reads(texts, starts) + ended, w, written, [Poll] + Expired(expired) + later);
      }
    }
  }

  // ---------------------------------------------------------------- forks and waiting

  /** The forks for n commands all succeed. */
  predicate Forked(n: nat, forks: nat -> int) {
    forall i | 0 <= i < n :: forks(i) != -1
  }

  lemma ForkedIff(commands: seq<Command>, forks: nat -> int)
    ensures Forked(|commands|, forks) <==> !P.AnyForkFails(NewEntries(commands), forks)
  {
    if !Forked(|commands|, forks) {
      var i :| 0 <= i < |commands| && forks(i) == -1;
      assert NewEntries(commands)[i].state == P.Initialized;
    }
  }

  lemma NewStarted(commands: seq<Command>, forks: nat -> int)
    requires Forked(|commands|, forks)
    ensures ShownAll(P.StartedAll(NewEntries(commands), forks, 0)) == Started(commands)
  {
    var es := NewEntries(commands);
    forall i | 0 <= i < |commands| ensures Shown(P.StartedAll(es, forks, 0)[i]) == Started(commands)[i] {
      P.StartedAt(es, forks, 0, i);
    }
  }

  /** The ends that waiting for these processes shows, up to an error. */
  function EndsSeen(es: seq<P.Entry>, waits: int -> P.WaitAnswer): seq<Work> {
    EndsUpTo(ShownAll(es), ShownAll(P.LookedAll(es, waits)), |es|)
  }

  /** No process is taken for running that has been reported to be gone. */
  predicate NoneMissed(es: seq<P.Entry>, waits: int -> P.WaitAnswer) {
    forall e | e in es :: e.state == P.Running ==> waits(e.pid) == P.NoChange
  }

  /** The end of process i is seen exactly when waitpid says so, and as it says. */
  lemma {:induction false} EndSeenIff(es: seq<P.Entry>, waits: int -> P.WaitAnswer, i: nat, ok: bool, n: nat)
    requires (forall e | e in es :: P.ActiveEntry(e)) && !P.AnyWaitFails(es, waits) && n <= |es|
    ensures ProcessEnds(i, ok) in EndsUpTo(ShownAll(es), ShownAll(P.LookedAll(es, waits)), n)
            <==> i < n && es[i].state == P.Running && waits(es[i].pid).Gone? && ok == (waits(es[i].pid).status == P.ExitStatus(0))
    decreases n
  {
    if n > 0 {
      EndSeenIff(es, waits, i, ok, n - 1);
      assert es[n - 1] in es && !P.WaitFails(es[n - 1], waits);
      P.LookedAt(es, waits, n - 1);
      ShownEnd(es[n - 1], waits);
      var ps, qs := ShownAll(es), ShownAll(P.LookedAll(es, waits));
      OneEndSeen(EndsUpTo(ps, qs, n - 1), ps[n - 1], qs[n - 1], n - 1, i, ok);
    }
  }

  lemma OneEndSeen(works: seq<Work>, before: Process, after: Process, k: nat, i: nat, ok: bool)
    ensures ProcessEnds(i, ok) in WithEnd(works, before, after, k)
            <==> ProcessEnds(i, ok) in works || (after != before && after.state == Exited(ok) && i == k)
  {
  }

  lemma ShownEnd(e: P.Entry, waits: int -> P.WaitAnswer)
    requires P.ActiveEntry(e) && !P.WaitFails(e, waits)
    ensures forall ok :: Shown(P.Looked(e, waits)) != Shown(e) && Shown(P.Looked(e, waits)).state == Exited(ok)
                         <==> e.state == P.Running && waits(e.pid).Gone? && ok == (waits(e.pid).status == P.ExitStatus(0))
  {
  }

  lemma LookedIsWaited(es: seq<P.Entry>, waits: int -> P.WaitAnswer)
    requires forall e | e in es :: P.ActiveEntry(e) && e.state != P.Initialized
    ensures Waited(es, P.LookedAll(es, waits))
    ensures forall e | e in P.LookedAll(es, waits) :: e.state != P.Initialized
  {
    var now := P.LookedAll(es, waits);
    forall i | 0 <= i < |es|
      ensures now[i] == es[i] || (es[i].state == P.Running && now[i] == es[i].(state := P.Finished, status := now[i].status))
      ensures now[i].state != P.Initialized
    {
      assert es[i] in es;
      P.LookedAt(es, waits, i);
    }
  }

  lemma LookedMissesNone(es: seq<P.Entry>, waits: int -> P.WaitAnswer)
    requires (forall e | e in es :: P.ActiveEntry(e)) && !P.AnyWaitFails(es, waits)
    ensures NoneMissed(P.LookedAll(es, waits), waits)
  {
    var now := P.LookedAll(es, waits);
    forall e | e in now && e.state == P.Running ensures waits(e.pid) == P.NoChange {
      var i :| 0 <= i < |now| && now[i] == e;
      assert es[i] in es && !P.WaitFails(es[i], waits);
      P.LookedAt(es, waits, i);
    }
  }

  /** Another look leaves only fewer running. */
  lemma LookedAgain(es: seq<P.Entry>, again: int -> P.WaitAnswer, waits: int -> P.WaitAnswer)
    requires (forall e | e in es :: P.ActiveEntry(e) && e.state != P.Initialized) && NoneMissed(es, waits)
    ensures NoneMissed(P.LookedAll(es, again), waits)
  {
    var now := P.LookedAll(es, again);
    LookedIsWaited(es, again);
    forall e | e in now && e.state == P.Running ensures waits(e.pid) == P.NoChange {
      var i :| 0 <= i < |now| && now[i] == e;
      assert es[i] in es;
    }
  }

  // ---------------------------------------------------------------- series of steps

  function Expired(expired: bool): seq<Work> {
    if expired then [Timeout] else []
  }

  lemma PollStep(w: Worker)
    requires !w.stopped
    ensures WorkerStep(w, Poll) == WorkerPoll(w)
  {
  }

  lemma TimeoutStep(w: Worker)
    requires !w.stopped
    ensures WorkerStep(w, Timeout) == WorkerTimeout(w)
  {
  }

  function Reads(texts: seq<string>, starts: seq<bool>): (works: seq<Work>)
    requires |texts| == |starts|
    ensures |works| == |texts| && forall i | 0 <= i < |works| :: works[i] == ReadLine(texts[i], starts[i])
  {
    seq(|texts|, i requires 0 <= i < |texts| => ReadLine(texts[i], starts[i]))
  }

  lemma ReadsMore(texts: seq<string>, i: nat, starts: seq<bool>, start: bool)
    requires i < |texts| && |starts| == i
    ensures Reads(texts[..i + 1], starts + [start]) == Reads(texts[..i], starts) + [ReadLine(texts[i], start)]
  {
  }

  lemma ReadsSplit(texts: seq<string>, i: nat, starts: seq<bool>, rest: seq<bool>)
    requires i <= |texts| && |starts| == i && |rest| == |texts| - i
    ensures Reads(texts, starts + rest) == Reads(texts[..i], starts) + Reads(texts[i..], rest)
  {
  }

  lemma StepsStart(step: (Worker, Work) -> (Worker, seq<string>), w: Worker, texts: seq<string>)
    ensures StepsBy(step, w, []) == (w, []) && texts + [] == texts
  {
  }

  lemma {:induction false} StoppedStays(step: (Worker, Work) -> (Worker, seq<string>), w: Worker, works: seq<Work>)
    requires forall work :: step(w, work) == (w, [])
    ensures StepsBy(step, w, works) == (w, [])
  {
    if works != [] {
      StoppedStays(step, w, works[..|works| - 1]);
      assert step(w, works[|works| - 1]) == (w, []);
      var none: seq<string> := [];
      assert none + none == none;
    }
  }

  /** With process i, if it has ended in the meantime. */
  function WithEnd(works: seq<Work>, before: Process, after: Process, i: nat): seq<Work> {
    if after == before || after.state == Running then works else works + [ProcessEnds(i, after.state.ok)]
  }

  /** The processes among the first n that have ended in the meantime. */
  function EndsUpTo(before: seq<Process>, after: seq<Process>, n: nat): seq<Work>
    requires n <= |before| == |after|
  {
    if n == 0 then [] else WithEnd(EndsUpTo(before, after, n - 1), before[n - 1], after[n - 1], n - 1)
  }

  /** Each process is as it was, or was running and has ended. */
  predicate HaveEnded(before: seq<Process>, after: seq<Process>) {
    |before| == |after|
    && forall i | 0 <= i < |before| ::
         after[i] == before[i]
         || (before[i].state == Running && after[i].state.Exited? && after[i] == before[i].(state := after[i].state))
  }

  /** The processes after the first n have been looked at. */
  function Mixed(before: seq<Process>, after: seq<Process>, n: nat): seq<Process>
    requires n <= |before| == |after|
  {
    after[..n] + before[n..]
  }

  lemma MixedMore(before: seq<Process>, after: seq<Process>, n: nat)
    requires n < |before| && HaveEnded(before, after)
    ensures if after[n] == before[n] then Mixed(before, after, n + 1) == Mixed(before, after, n)
            else Mixed(before, after, n)[n].state == Running
                 && Mixed(before, after, n + 1) == Mixed(before, after, n)[n := before[n].(state := after[n].state)]
                 && Mixed(before, after, n)[n] == before[n]
  {
    assert before[n..] == [before[n]] + before[n + 1..] && after[..n + 1] == after[..n] + [after[n]];
  }

  lemma OneMoreEnd(step: (Worker, Work) -> (Worker, seq<string>), w: Worker, after: seq<Process>, n: nat, works: seq<Work>)
    requires !w.stopped && HaveEnded(w.active, after) && n < |after|
    requires forall v: Worker, i, ok | !v.stopped :: step(v, ProcessEnds(i, ok)) == (ProcessEnded(v, i, ok), [])
    requires StepsBy(step, w, works) == (w.(active := Mixed(w.active, after, n)), [])
    ensures StepsBy(step, w, WithEnd(works, w.active[n], after[n], n)) == (w.(active := Mixed(w.active, after, n + 1)), [])
  {
    MixedMore(w.active, after, n);
    if after[n] != w.active[n] {
      var v := w.(active := Mixed(w.active, after, n));
      var none: seq<string> := [];
      assert none + none == none;
      OneMoreStep(step, w, works, ProcessEnds(n, after[n].state.ok));
      assert ProcessEnded(v, n, after[n].state.ok) == w.(active := Mixed(w.active, after, n + 1));
    }
  }

  lemma {:induction false} EndsAreEnds(before: seq<Process>, after: seq<Process>, n: nat)
    requires n <= |before| == |after|
    ensures OnlyEnds(EndsUpTo(before, after, n))
  {
    if n > 0 {
      EndsAreEnds(before, after, n - 1);
    }
  }

  lemma {:induction false} EndsLead(step: (Worker, Work) -> (Worker, seq<string>), w: Worker, after: seq<Process>, n: nat)
    requires !w.stopped && HaveEnded(w.active, after) && n <= |after|
    requires forall v: Worker, i, ok | !v.stopped :: step(v, ProcessEnds(i, ok)) == (ProcessEnded(v, i, ok), [])
    ensures StepsBy(step, w, EndsUpTo(w.active, after, n)) == (w.(active := Mixed(w.active, after, n)), [])
  {
    if n == 0 {
      assert after[..0] + w.active[0..] == w.active;
    } else {
      var works := EndsUpTo(w.active, after, n - 1);
      EndsLead(step, w, after, n - 1);
      OneMoreEnd(step, w, after, n - 1, works);
    }
  }

  lemma EndStep(w: Worker, i: nat, ok: bool)
    requires !w.stopped
    ensures WorkerStep(w, ProcessEnds(i, ok)) == (ProcessEnded(w, i, ok), [])
  {
  }

  /** What waitpid does to the active list. */
  predicate Waited(before: seq<P.Entry>, after: seq<P.Entry>) {
    |after| == |before|
    && forall i | 0 <= i < |after| ::
         after[i] == before[i]
         || (before[i].state == P.Running && after[i] == before[i].(state := P.Finished, status := after[i].status))
  }

  lemma Collected(w: Worker, before: seq<P.Entry>, after: seq<P.Entry>)
    requires !w.stopped && w.active == ShownAll(before) && Waited(before, after)
    ensures var ended := EndsUpTo(w.active, ShownAll(after), |before|);
            WorkerSteps(w, ended) == (w.(active := ShownAll(after)), []) && OnlyEnds(ended)
  {
    forall v: Worker, i, ok | !v.stopped ensures WorkerStep(v, ProcessEnds(i, ok)) == (ProcessEnded(v, i, ok), []) {
      EndStep(v, i, ok);
    }
    var qs := ShownAll(after);
    EndsLead(WorkerStep, w, qs, |before|);
    EndsAreEnds(w.active, qs, |before|);
    assert qs[..|before|] + w.active[|before|..] == qs;
  }

  /** The process list's summary in the protocol's terms. */
  lemma SummaryShown(es: seq<P.Entry>)
    ensures (exists e | e in es :: P.FailedEntry(e)) <==> SummaryShort(ShownAll(es)) == SomeFailed
    ensures (forall e | e in es :: P.Succeeded(e)) <==> SummaryShort(ShownAll(es)) == AllPassed
  {
    var ps := ShownAll(es);
    forall p | p in ps ensures exists e :: e in es && p == Shown(e) {
      var i :| 0 <= i < |ps| && ps[i] == p;
      assert es[i] in es;
    }
    forall e | e in es ensures Shown(e) in ps {
      var i :| 0 <= i < |es| && es[i] == e;
      assert ps[i] == Shown(e);
    }
  }
}
