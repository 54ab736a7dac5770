/**
  The worker's process list: two lists and a counter changed in place, for any answers of the
  operating system. Processes are asked to stop before they are killed.
*/
module ProcessList {
  import SimpleLex

  datatype State = Initialized | Running | Finished | SigtermSent | SigkillSent

  datatype Signal = Sigterm | Sigkill

  datatype Status = ExitStatus(code: int) | KilledBySignal | OtherStatus

  /** `signals` is the history of the signals sent to the process. */
  datatype Entry = Entry(
    name: string,
    argv: seq<string>,
    state: State,
    pid: int,
    status: Status,
    signals: seq<Signal>)

  /** SIGTERM once, and only after it SIGKILL. */
  predicate Polite(signals: seq<Signal>) {
    signals == [] || (signals[0] == Sigterm && forall i | 0 < i < |signals| :: signals[i] == Sigkill)
  }

  /** An entry that is waited for. */
  predicate ActiveEntry(e: Entry) {
    (e.state == Initialized || e.state == Running || e.state == Finished) && e.signals == []
  }

  /** An entry on the kill list: what it has been sent is what its state says. */
  predicate KillEntry(e: Entry) {
    && Polite(e.signals)
    && match e.state
       case Running => e.signals == []
       case SigtermSent => e.signals == [Sigterm]
       case SigkillSent => |e.signals| >= 2
       case _ => false
  }

  /** The next signal of the escalation. */
  function Escalated(e: Entry): Entry {
    match e.state
    case Running => e.(state := SigtermSent, signals := e.signals + [Sigterm])
    case _ => e.(state := SigkillSent, signals := e.signals + [Sigkill])
  }

  lemma EscalationIsPolite(e: Entry)
    requires KillEntry(e)
    ensures KillEntry(Escalated(e))
    ensures e.state != Running ==> Escalated(e).state == SigkillSent
  {
  }

  // ---------------------------------------------------------------- the operating system's answers

  /** waitpid: an error, no change, or the end of the process. */
  datatype WaitAnswer = WaitError | NoChange | Gone(status: Status)

  /** The answers to waitpid and kill in one round, by process id. */
  datatype Round = Round(waits: int -> WaitAnswer, refuses: int -> bool)

  /** Is waitpid called for this entry? */
  predicate Asked(e: Entry) {
    e.state != Initialized && e.state != Finished
  }

  predicate WaitFails(e: Entry, waits: int -> WaitAnswer) {
    Asked(e) && waits(e.pid) == WaitError
  }

  predicate AnyWaitFails(es: seq<Entry>, waits: int -> WaitAnswer) {
    exists i :: 0 <= i < |es| && WaitFails(es[i], waits)
  }

  /** The entry after it has been waited for. */
  function Looked(e: Entry, waits: int -> WaitAnswer): Entry {
    if Asked(e) && waits(e.pid).Gone? then e.(state := Finished, status := waits(e.pid).status) else e
  }

  /** The active entries after they have been waited for; an error ends it. */
  function LookedAll(es: seq<Entry>, waits: int -> WaitAnswer): (r: seq<Entry>)
    ensures |r| == |es|
  {
    if es == [] then []
    else if WaitFails(es[0], waits) then es
    else [Looked(es[0], waits)] + LookedAll(es[1..], waits)
  }

  /** The entries of the kill list that have not ended, and those that have, up to an error. */
  function KeptAll(es: seq<Entry>, waits: int -> WaitAnswer): (r: seq<Entry>)
    ensures |r| <= |es|
  {
    if es == [] then []
    else if WaitFails(es[0], waits) then es
    else (if Looked(es[0], waits).state == Finished then [] else [es[0]]) + KeptAll(es[1..], waits)
  }

  function EndedAll(es: seq<Entry>, waits: int -> WaitAnswer): (r: seq<Entry>)
    ensures |r| <= |es|
  {
    if es == [] || WaitFails(es[0], waits) then []
    else (if Looked(es[0], waits).state == Finished then [Looked(es[0], waits)] else []) + EndedAll(es[1..], waits)
  }

  /** The kill list after the next signals; a signal that is refused ends it. */
  function SignalledAll(es: seq<Entry>, refuses: int -> bool): (r: seq<Entry>)
    ensures |r| == |es|
  {
    if es == [] then []
    else [Escalated(es[0])] + if refuses(es[0].pid) then es[1..] else SignalledAll(es[1..], refuses)
  }

  predicate AnyRefused(es: seq<Entry>, refuses: int -> bool) {
    exists i :: 0 <= i < |es| && refuses(es[i].pid)
  }

  /** Fork i gives a process id or -1; the first that fails ends it. */
  function StartedAll(es: seq<Entry>, forks: nat -> int, i: nat): (r: seq<Entry>)
    ensures |r| == |es|
  {
    if es == [] then []
    else if es[0].state != Initialized then [es[0]] + StartedAll(es[1..], forks, i + 1)
    else if forks(i) == -1 then es
    else [es[0].(state := Running, pid := forks(i))] + StartedAll(es[1..], forks, i + 1)
  }

  predicate AnyForkFails(es: seq<Entry>, forks: nat -> int) {
    exists i :: 0 <= i < |es| && es[i].state == Initialized && forks(i) == -1
  }

  // ---------------------------------------------------------------- loops over these lists

  lemma Grouped(a: seq<Entry>, b: seq<Entry>, c: seq<Entry>)
    ensures a + (b + c) == a + b + c && a + [] == a
  {
  }

  /** Entry i of a list, and the list with it replaced. */
  lemma OneReplaced(now: seq<Entry>, before: seq<Entry>, i: nat, e: Entry)
    requires i < |now| == |before| && now[i..] == before[i..]
    ensures now[i] == before[i] && now[i..][0] == now[i] && now[i..][1..] == now[i + 1..] == before[i + 1..]
    ensures var next := now[i := e]; next[..i + 1] == now[..i] + [e] && next[i + 1..] == now[i + 1..] && next == now[..i] + [e] + now[i + 1..]
  {
    assert now[i..][0] == before[i..][0];
    assert now[i..][1..] == before[i..][1..];
  }

  /** The first i entries have been waited for. */
  predicate LookedUpTo(before: seq<Entry>, i: nat, now: seq<Entry>, waits: int -> WaitAnswer) {
    && i <= |now| == |before| && now[i..] == before[i..]
    && now[..i] + LookedAll(now[i..], waits) == LookedAll(before, waits)
    && forall j | 0 <= j < i :: !WaitFails(before[j], waits)
  }

  lemma LookedStep(before: seq<Entry>, i: nat, now: seq<Entry>, waits: int -> WaitAnswer)
    requires LookedUpTo(before, i, now, waits) && i < |now|
    ensures now[i] == before[i]
    ensures if WaitFails(now[i], waits) then now == LookedAll(before, waits) && AnyWaitFails(before, waits)
            else LookedUpTo(before, i + 1, now[i := Looked(now[i], waits)], waits)
  {
    OneReplaced(now, before, i, Looked(now[i], waits));
    if WaitFails(now[i], waits) {
      assert now == now[..i] + now[i..];
    } else {
      Grouped(now[..i], [Looked(now[i], waits)], LookedAll(now[i + 1..], waits));
    }
  }

  lemma LookedEnds(before: seq<Entry>, now: seq<Entry>, waits: int -> WaitAnswer)
    ensures LookedUpTo(before, 0, before, waits)
    ensures LookedUpTo(before, |now|, now, waits) ==> now == LookedAll(before, waits) && !AnyWaitFails(before, waits)
  {
    assert before[0..] == before && before[..0] + LookedAll(before, waits) == LookedAll(before, waits);
    assert now[|now|..] == [] && now[..|now|] == now;
    Grouped(now, [], []);
  }

  /** The first k of the kill list have been waited for; i of them are left. */
  predicate KeptUpTo(before: seq<Entry>, k: nat, now: seq<Entry>, i: nat, freed0: seq<Entry>, freed: seq<Entry>, waits: int -> WaitAnswer) {
    && i <= |now| && k <= |before| && now[i..] == before[k..]
    && now[..i] + KeptAll(now[i..], waits) == KeptAll(before, waits)
    && freed + EndedAll(now[i..], waits) == freed0 + EndedAll(before, waits)
    && forall j | 0 <= j < k :: !WaitFails(before[j], waits)
  }

  lemma KeptHead(now: seq<Entry>, i: nat, before: seq<Entry>, k: nat)
    requires i < |now| && k <= |before| && now[i..] == before[k..]
    ensures k < |before| && now[i] == before[k] && now[i..][0] == now[i] && now[i..][1..] == now[i + 1..] == before[k + 1..]
  {
    assert now[i..][0] == before[k..][0] && now[i..][1..] == before[k..][1..];
  }

  lemma KeptFails(before: seq<Entry>, k: nat, now: seq<Entry>, i: nat, freed0: seq<Entry>, freed: seq<Entry>, waits: int -> WaitAnswer)
    requires KeptUpTo(before, k, now, i, freed0, freed, waits) && i < |now| && WaitFails(now[i], waits)
    ensures now == KeptAll(before, waits) && freed == freed0 + EndedAll(before, waits) && AnyWaitFails(before, waits)
  {
    KeptHead(now, i, before, k);
    assert now == now[..i] + now[i..];
    Grouped(freed, [], []);
  }

  /** It has ended. */
  lemma KeptLess(before: seq<Entry>, k: nat, now: seq<Entry>, i: nat, freed0: seq<Entry>, freed: seq<Entry>, waits: int -> WaitAnswer)
    requires KeptUpTo(before, k, now, i, freed0, freed, waits) && i < |now| && !WaitFails(now[i], waits)
    requires Looked(now[i], waits).state == Finished
    ensures KeptUpTo(before, k + 1, now[..i] + now[i + 1..], i, freed0, freed + [Looked(now[i], waits)], waits)
  {
    KeptHead(now, i, before, k);
    KeptGone(now, i);
    assert KeptAll(now[i..], waits) == [] + KeptAll(now[i + 1..], waits) == KeptAll(now[i + 1..], waits);
    Grouped(freed, [Looked(now[i], waits)], EndedAll(now[i + 1..], waits));
  }

  /** It is still there. */
  lemma KeptStill(before: seq<Entry>, k: nat, now: seq<Entry>, i: nat, freed0: seq<Entry>, freed: seq<Entry>, waits: int -> WaitAnswer)
    requires KeptUpTo(before, k, now, i, freed0, freed, waits) && i < |now| && !WaitFails(now[i], waits)
    requires Looked(now[i], waits).state != Finished
    ensures KeptUpTo(before, k + 1, now, i + 1, freed0, freed, waits)
  {
    KeptHead(now, i, before, k);
    assert now[..i + 1] == now[..i] + [now[i]];
    Grouped(now[..i], [now[i]], KeptAll(now[i + 1..], waits));
    assert EndedAll(now[i..], waits) == [] + EndedAll(now[i + 1..], waits) == EndedAll(now[i + 1..], waits);
  }

  lemma KeptStep(before: seq<Entry>, k: nat, now: seq<Entry>, i: nat, freed0: seq<Entry>, freed: seq<Entry>, waits: int -> WaitAnswer)
    requires KeptUpTo(before, k, now, i, freed0, freed, waits) && i < |now|
    ensures WaitFails(now[i], waits) ==>
              now == KeptAll(before, waits) && freed == freed0 + EndedAll(before, waits) && AnyWaitFails(before, waits)
    ensures !WaitFails(now[i], waits) ==>
              var e := Looked(now[i], waits);
              if e.state == Finished then KeptUpTo(before, k + 1, now[..i] + now[i + 1..], i, freed0, freed + [e], waits)
              else KeptUpTo(before, k + 1, now, i + 1, freed0, freed, waits)
  {
    if WaitFails(now[i], waits) {
      KeptFails(before, k, now, i, freed0, freed, waits);
    } else if Looked(now[i], waits).state == Finished {
      KeptLess(before, k, now, i, freed0, freed, waits);
    } else {
      KeptStill(before, k, now, i, freed0, freed, waits);
    }
  }

  lemma KeptGone(now: seq<Entry>, i: nat)
    requires i < |now|
    ensures var next := now[..i] + now[i + 1..]; next[..i] == now[..i] && next[i..] == now[i + 1..]
  {
  }

  lemma KeptEnds(before: seq<Entry>, k: nat, now: seq<Entry>, freed0: seq<Entry>, freed: seq<Entry>, waits: int -> WaitAnswer)
    ensures KeptUpTo(before, 0, before, 0, freed0, freed0, waits)
    ensures KeptUpTo(before, k, now, |now|, freed0, freed, waits) ==>
              now == KeptAll(before, waits) && freed == freed0 + EndedAll(before, waits) && !AnyWaitFails(before, waits)
  {
    assert before[0..] == before && before[..0] + KeptAll(before, waits) == KeptAll(before, waits);
    assert now[|now|..] == [] && now[..|now|] == now;
    Grouped(now, [], []);
    Grouped(freed, [], []);
  }

  /** The first i entries have been started. */
  predicate StartedUpTo(before: seq<Entry>, i: nat, now: seq<Entry>, forks: nat -> int) {
    && i <= |now| == |before| && now[i..] == before[i..]
    && now[..i] + StartedAll(now[i..], forks, i) == StartedAll(before, forks, 0)
    && forall j | 0 <= j < i :: now[j].state != Initialized && !(before[j].state == Initialized && forks(j) == -1)
  }

  function StartedOne(e: Entry, pid: int): Entry {
    if e.state == Initialized then e.(state := Running, pid := pid) else e
  }

  lemma StartedStep(before: seq<Entry>, i: nat, now: seq<Entry>, forks: nat -> int)
    requires StartedUpTo(before, i, now, forks) && i < |now|
    ensures now[i] == before[i]
    ensures if now[i].state == Initialized && forks(i) == -1 then now == StartedAll(before, forks, 0) && AnyForkFails(before, forks)
            else StartedUpTo(before, i + 1, now[i := StartedOne(now[i], forks(i))], forks)
  {
    OneReplaced(now, before, i, StartedOne(now[i], forks(i)));
    if now[i].state == Initialized && forks(i) == -1 {
      assert now == now[..i] + now[i..];
    } else {
      Grouped(now[..i], [StartedOne(now[i], forks(i))], StartedAll(now[i + 1..], forks, i + 1));
    }
  }

  lemma StartedEnds(before: seq<Entry>, now: seq<Entry>, forks: nat -> int)
    ensures StartedUpTo(before, 0, before, forks)
    ensures StartedUpTo(before, |now|, now, forks) ==> now == StartedAll(before, forks, 0) && !AnyForkFails(before, forks)
    ensures StartedUpTo(before, |now|, now, forks) ==> forall e | e in now :: e.state != Initialized
  {
    assert before[0..] == before && before[..0] + StartedAll(before, forks, 0) == StartedAll(before, forks, 0);
    assert now[|now|..] == [] && now[..|now|] == now;
    Grouped(now, [], []);
  }

  /** The first i entries have been signalled. */
  predicate SignalledUpTo(before: seq<Entry>, i: nat, now: seq<Entry>, refuses: int -> bool) {
    && i <= |now| == |before| && now[i..] == before[i..]
    && now[..i] + SignalledAll(now[i..], refuses) == SignalledAll(before, refuses)
    && forall j | 0 <= j < i :: !refuses(before[j].pid)
  }

  lemma SignalledStep(before: seq<Entry>, i: nat, now: seq<Entry>, refuses: int -> bool)
    requires SignalledUpTo(before, i, now, refuses) && i < |now|
    ensures now[i] == before[i]
    ensures var next := now[i := Escalated(now[i])];
            if refuses(now[i].pid) then next == SignalledAll(before, refuses) && AnyRefused(before, refuses)
            else SignalledUpTo(before, i + 1, next, refuses)
  {
    OneReplaced(now, before, i, Escalated(now[i]));
    Grouped(now[..i], [Escalated(now[i])], if refuses(now[i].pid) then now[i + 1..] else SignalledAll(now[i + 1..], refuses));
  }

  lemma SignalledEnd(before: seq<Entry>, now: seq<Entry>, refuses: int -> bool)
    requires SignalledUpTo(before, |now|, now, refuses)
    ensures now == SignalledAll(before, refuses) && !AnyRefused(before, refuses)
  {
    assert now[|now|..] == [] && now[..|now|] == now;
    Grouped(now, [], []);
  }

  lemma SignalledStart(before: seq<Entry>, refuses: int -> bool)
    ensures SignalledUpTo(before, 0, before, refuses)
  {
    assert before[0..] == before;
    assert before[..0] + SignalledAll(before, refuses) == SignalledAll(before, refuses);
  }

  /** What remains keeps its entries, and all of them are still there. */
  lemma {:induction false} KeptAre(es: seq<Entry>, waits: int -> WaitAnswer)
    requires forall e | e in es :: KillEntry(e)
    ensures forall e | e in KeptAll(es, waits) :: e in es
    ensures !AnyWaitFails(es, waits) ==> forall e | e in KeptAll(es, waits) :: waits(e.pid) == NoChange
    decreases |es|
  {
    if es != [] && !WaitFails(es[0], waits) {
      assert es[0] in es;
      KeptAre(es[1..], waits);
      if !AnyWaitFails(es, waits) {
        assert !AnyWaitFails(es[1..], waits) by {
          forall i | 0 <= i < |es[1..]| ensures !WaitFails(es[1..][i], waits) {
            assert es[1..][i] == es[i + 1];
          }
        }
      }
    }
  }

  function EscalatedAll(es: seq<Entry>): (r: seq<Entry>)
    ensures |r| == |es| && forall i | 0 <= i < |es| :: r[i] == Escalated(es[i])
  {
    seq(|es|, i requires 0 <= i < |es| => Escalated(es[i]))
  }

  function WhereRunning(es: seq<Entry>, running: bool): seq<Entry> {
    if es == [] then []
    else WhereRunning(es[..|es| - 1], running)
         + if (es[|es| - 1].state == Running) == running then [es[|es| - 1]] else []
  }

  /** The first n of the active processes have been moved or freed. */
  predicate MovedUpTo(before: seq<Entry>, n: nat, active: seq<Entry>, toKill0: seq<Entry>, toKill: seq<Entry>,
                      freed0: seq<Entry>, freed: seq<Entry>) {
    && n <= |before| && active == before[n..]
    && toKill == toKill0 + WhereRunning(before[..n], true)
    && freed == freed0 + WhereRunning(before[..n], false)
  }

  lemma MovedMore(before: seq<Entry>, n: nat, active: seq<Entry>, toKill0: seq<Entry>, toKill: seq<Entry>,
                  freed0: seq<Entry>, freed: seq<Entry>)
    requires MovedUpTo(before, n, active, toKill0, toKill, freed0, freed) && active != []
    ensures var e := active[0];
            MovedUpTo(before, n + 1, active[1..], toKill0, toKill + (if e.state == Running then [e] else []),
                      freed0, freed + (if e.state == Running then [] else [e]))
  {
    assert before[..n + 1][..n] == before[..n];
  }

  lemma MovedAll(before: seq<Entry>, n: nat, toKill0: seq<Entry>, toKill: seq<Entry>, freed0: seq<Entry>, freed: seq<Entry>)
    requires MovedUpTo(before, n, [], toKill0, toKill, freed0, freed)
    ensures toKill == toKill0 + WhereRunning(before, true) && freed == freed0 + WhereRunning(before, false)
  {
    assert before[..n] == before;
  }

  datatype Summary = AllPassed | SomeFailed | NotFinished

  predicate Succeeded(e: Entry) {
    e.state == Finished && e.status == ExitStatus(0)
  }

  predicate FailedEntry(e: Entry) {
    e.state == Finished && e.status != ExitStatus(0)
  }

  function NewEntry(name: string, command: string): Entry {
    Entry(name, SimpleLex.Tokens(SimpleLex.Quotes, command), Initialized, 0, OtherStatus, [])
  }

  class Processes {
    const maxEntries: nat
    var entries: nat
    var active: seq<Entry>
    var toKill: seq<Entry>
    var freed: seq<Entry>

    predicate Valid()
      reads this
    {
      && entries == |active| + |toKill| <= maxEntries
      && (forall e | e in active :: ActiveEntry(e))
      && (forall e | e in toKill :: KillEntry(e))
      && (forall e | e in freed :: Polite(e.signals))
    }

    constructor (maxEntries: nat)
      ensures Valid() && active == [] && toKill == [] && this.maxEntries == maxEntries
    {
      this.maxEntries := maxEntries;
      entries, active, toKill, freed := 0, [], [], [];
    }

    /** A new process, unless the list is full or its command has no word. */
    method Add(name: string, command: string) returns (added: bool)
      requires Valid()
      modifies this
      ensures Valid() && toKill == old(toKill) && freed == old(freed)
      ensures added <==> old(entries) < maxEntries && SimpleLex.Tokens(SimpleLex.Quotes, command) != []
      ensures active == if added then old(active) + [NewEntry(name, command)] else old(active)
    {
      if entries + 1 > maxEntries {
        return false;
      }
      var argv := SimpleLex.ParseCommand(command);
      if argv.None? {
        return false;
      }
      entries := entries + 1;
      active := active + [Entry(name, argv.value, Initialized, 0, OtherStatus, [])];
      added := true;
    }

    /** Start what has not been started; a fork that fails stops it. */
    method ExecInitialized(forks: nat -> int) returns (ok: bool)
      requires Valid()
      modifies this`active
      ensures Valid() && active == StartedAll(old(active), forks, 0)
      ensures ok <==> !AnyForkFails(old(active), forks)
      ensures ok ==> forall e | e in active :: e.state != Initialized
    {
      var i := 0;
      ghost var before := active;
      StartedEnds(before, before, forks);
      while i < |active|
        invariant Valid() && StartedUpTo(before, i, active, forks)
      {
        assert active[i] in active;
        StartedStep(before, i, active, forks);
        if active[i].state == Initialized {
          if forks(i) == -1 {
            return false;
          }
          active := active[i := active[i].(state := Running, pid := forks(i))];
        } else {
          assert active[i := active[i]] == active;
        }
        i := i + 1;
      }
      StartedEnds(before, active, forks);
      ok := true;
    }

    /** One non-blocking waitpid. */
    method WaitpidEntry(e: Entry, waits: int -> WaitAnswer) returns (ok: bool, r: Entry)
      ensures ok <==> !WaitFails(e, waits)
      ensures r == Looked(e, waits)
    {
      r := e;
      if e.state == Initialized || e.state == Finished {
        return true, e;
      }
      match waits(e.pid) {
        case WaitError => ok := false;
        case NoChange => ok := true;
        case Gone(status) => ok, r := true, e.(state := Finished, status := status);
      }
    }

    method WaitpidActive(waits: int -> WaitAnswer) returns (ok: bool)
      requires Valid()
      modifies this`active
      ensures Valid() && active == LookedAll(old(active), waits)
      ensures ok <==> !AnyWaitFails(old(active), waits)
    {
      var i := 0;
      ghost var before := active;
      LookedEnds(before, before, waits);
      while i < |active|
        invariant Valid() && LookedUpTo(before, i, active, waits)
      {
        assert active[i] in active;
        LookedStep(before, i, active, waits);
        var r;
        ok, r := WaitpidEntry(active[i], waits);
        if !ok {
          return;
        }
        active := active[i := r];
        i := i + 1;
      }
      LookedEnds(before, active, waits);
      ok := true;
    }

    /** Collect the processes of both lists; those on the kill list are freed when they have
        ended and are otherwise left as they were. */
    method Waitpid(waits: int -> WaitAnswer) returns (ok: bool)
      requires Valid()
      modifies this
      ensures Valid() && active == LookedAll(old(active), waits)
      ensures ok <==> !AnyWaitFails(old(active), waits) && !AnyWaitFails(old(toKill), waits)
      ensures toKill == if AnyWaitFails(old(active), waits) then old(toKill) else KeptAll(old(toKill), waits)
      ensures freed == old(freed) + if AnyWaitFails(old(active), waits) then [] else EndedAll(old(toKill), waits)
    {
      ok := WaitpidActive(waits);
      if ok {
        ok := WaitpidKillList(waits);
      }
    }

    /** Entry i of the kill list: an error, still there, or freed. */
    method WaitpidKillEntry(i: nat, waits: int -> WaitAnswer) returns (ok: bool, gone: bool)
      requires Valid() && i < |toKill|
      modifies this`toKill, this`freed, this`entries
      ensures var e := old(toKill)[i];
              && (ok <==> !WaitFails(e, waits)) && (gone <==> ok && Looked(e, waits).state == Finished)
              && freed == if gone then old(freed) + [Looked(e, waits)] else old(freed)
      ensures Valid() && toKill == if gone then old(toKill)[..i] + old(toKill)[i + 1..] else old(toKill)
    {
      assert toKill[i] in toKill;
      var r;
      ok, r := WaitpidEntry(toKill[i], waits);
      gone := ok && r.state == Finished;
      if gone {
        Free(i, r);
      }
    }

    method WaitpidKillList(waits: int -> WaitAnswer) returns (ok: bool)
      requires Valid()
      modifies this`toKill, this`freed, this`entries
      ensures Valid() && toKill == KeptAll(old(toKill), waits) && freed == old(freed) + EndedAll(old(toKill), waits)
      ensures ok <==> !AnyWaitFails(old(toKill), waits)
    {
      ghost var before, freed0 := toKill, freed;
      var i := 0;
      ghost var k := 0;
      KeptEnds(before, 0, before, freed0, freed0, waits);
      while i < |toKill|
        invariant Valid() && KeptUpTo(before, k, toKill, i, freed0, freed, waits)
        decreases |toKill| - i
      {
        KeptStep(before, k, toKill, i, freed0, freed, waits);
        var gone;
        ok, gone := WaitpidKillEntry(i, waits);
        if !ok {
          return;
        }
        if !gone {
          i := i + 1;
        }
        k := k + 1;
      }
      KeptEnds(before, k, toKill, freed0, freed, waits);
      ok := true;
    }

    /** Entry i of the kill list has ended as r. */
    method Free(i: nat, r: Entry)
      requires Valid() && i < |toKill| && r.signals == toKill[i].signals
      modifies this`toKill, this`freed, this`entries
      ensures Valid() && toKill == old(toKill)[..i] + old(toKill)[i + 1..] && freed == old(freed) + [r]
    {
      assert toKill[i] in toKill;
      toKill := toKill[..i] + toKill[i + 1..];
      freed := freed + [r];
      entries := entries - 1;
    }

    /** The first active process moves to the kill list or is freed. */
    method MoveFirst()
      requires Valid() && active != []
      modifies this
      ensures Valid() && active == old(active)[1..]
      ensures var e := old(active)[0];
              && toKill == old(toKill) + (if e.state == Running then [e] else [])
              && freed == old(freed) + (if e.state == Running then [] else [e])
    {
      var e := active[0];
      assert e in active;
      active := active[1..];
      if e.state == Running {
        toKill := toKill + [e];
      } else {
        freed := freed + [e];
        entries := entries - 1;
      }
    }

    /** Running processes move to the kill list; the others are freed. */
    method MoveActiveToKillList()
      requires Valid()
      modifies this
      ensures Valid() && active == []
      ensures toKill == old(toKill) + WhereRunning(old(active), true)
      ensures freed == old(freed) + WhereRunning(old(active), false)
    {
      ghost var before, toKill0, freed0 := active, toKill, freed;
      ghost var n := 0;
      while active != []
        invariant Valid() && MovedUpTo(before, n, active, toKill0, toKill, freed0, freed)
        decreases |active|
      {
        MovedMore(before, n, active, toKill0, toKill, freed0, freed);
        MoveFirst();
        n := n + 1;
      }
      MovedAll(before, n, toKill0, toKill, freed0, freed);
    }

    /** The result of the current request: a failure counts at once, a success when all have ended. */
    method SummaryShort() returns (r: Summary)
      ensures r == SomeFailed <==> exists e | e in active :: FailedEntry(e)
      ensures r == AllPassed <==> forall e | e in active :: Succeeded(e)
    {
      r := AllPassed;
      for i := 0 to |active|
        invariant r != SomeFailed && forall j | 0 <= j < i :: !FailedEntry(active[j])
        invariant r == AllPassed <==> forall j | 0 <= j < i :: Succeeded(active[j])
      {
        assert active[i] in active;
        if active[i].state == Finished {
          if active[i].status != ExitStatus(0) {
            assert FailedEntry(active[i]);
            return SomeFailed;
          }
        } else {
          r := NotFinished;
        }
      }
    }

    /** The next signal for one entry; the two states the source asserts away are not met. */
    method ProcessKillListEntry(e: Entry, refuses: int -> bool) returns (ok: bool, r: Entry)
      requires KillEntry(e)
      ensures r == Escalated(e) && ok == !refuses(e.pid)
    {
      var signal := Sigterm;
      var newState := SigtermSent;
      match e.state {
        case Running =>
        case SigtermSent => signal, newState := Sigkill, SigkillSent;
        case SigkillSent => signal, newState := Sigkill, SigkillSent;
        case _ => assert false;
      }
      ok := !refuses(e.pid);
      r := e.(state := newState, signals := e.signals + [signal]);
    }

    /** Signal every process on the kill list; a signal that is refused stops it. */
    method SignalKillList(refuses: int -> bool) returns (ok: bool)
      requires Valid()
      modifies this`toKill
      ensures Valid() && toKill == SignalledAll(old(toKill), refuses)
      ensures ok <==> !AnyRefused(old(toKill), refuses)
    {
      var i := 0;
      ghost var before := toKill;
      SignalledStart(before, refuses);
      while i < |toKill|
        invariant Valid() && SignalledUpTo(before, i, toKill, refuses)
      {
        assert toKill[i] in toKill;
        EscalationIsPolite(toKill[i]);
        SignalledStep(before, i, toKill, refuses);
        var r;
        ok, r := ProcessKillListEntry(toKill[i], refuses);
        toKill := toKill[i := r];
        if !ok {
          return;
        }
        i := i + 1;
      }
      SignalledEnd(before, toKill, refuses);
      ok := true;
    }

    /** Collect, then signal every process that is left; an error or a refusal stops it. */
    method ProcessKillList(round: Round) returns (ok: bool)
      requires Valid()
      modifies this
      ensures Valid() && active == LookedAll(old(active), round.waits)
      ensures var failed := AnyWaitFails(old(active), round.waits) || AnyWaitFails(old(toKill), round.waits);
              var left := if AnyWaitFails(old(active), round.waits) then old(toKill) else KeptAll(old(toKill), round.waits);
              && (ok <==> !failed && !AnyRefused(left, round.refuses))
              && toKill == if failed then left else SignalledAll(left, round.refuses)
    {
      ok := Waitpid(round.waits);
      if ok {
        ok := SignalKillList(round.refuses);
      }
    }

    /** One round of stopping everything. */
    method KillRound(round: Round, n: nat, rounds: nat -> Round) returns (ok: bool)
      requires Valid() && active == [] && round == rounds(n)
      modifies this
      ensures Valid() && active == []
      ensures Smooth(rounds) ==> ok
      ensures old(Stubborn(toKill, rounds, n)) && ok ==> Stubborn(toKill, rounds, n + 1)
      ensures ok ==> forall e | e in toKill :: e.state != Running
      ensures ok && (forall e | e in old(toKill) :: e.state != Running) ==> forall e | e in toKill :: e.state == SigkillSent
    {
      ghost var before := toKill;
      ok := ProcessKillList(round);
      RoundEffect(before, rounds, n, toKill, ok);
    }

    /** Stop everything: ten rounds, and up to ten more while processes are left. It gives up only
        after a failed system call, or on processes that were still there in each of twenty rounds
        and have been sent SIGKILL. */
    method KillAll(rounds: nat -> Round) returns (ok: bool)
      requires Valid()
      modifies this
      ensures Valid() && active == []
      ensures ok ==> toKill == [] && entries == 0
      ensures Smooth(rounds) && !ok ==>
                toKill != [] && forall e | e in toKill :: e.state == SigkillSent && forall n | 0 <= n < 20 :: rounds(n).waits(e.pid) == NoChange
    {
      MoveActiveToKillList();
      var i := 0;
      while i < 10
        invariant i <= 10 && Valid() && active == [] && Stubborn(toKill, rounds, i)
        invariant i >= 1 ==> forall e | e in toKill :: e.state != Running
        invariant i >= 2 ==> forall e | e in toKill :: e.state == SigkillSent
      {
        ok := KillRound(rounds(i), i, rounds);
        if !ok {
          return;
        }
        i := i + 1;
      }
      i := 0;
      while i < 10 && |toKill| > 0
        invariant i <= 10 && Valid() && active == [] && Stubborn(toKill, rounds, 10 + i)
        invariant forall e | e in toKill :: e.state == SigkillSent
      {
        ok := KillRound(rounds(10 + i), 10 + i, rounds);
        if !ok {
          return;
        }
        i := i + 1;
      }
      ok := |toKill| == 0;
    }
  }

  /** What one round leaves of the kill list. */
  lemma RoundEffect(before: seq<Entry>, rounds: nat -> Round, n: nat, now: seq<Entry>, ok: bool)
    requires forall e | e in before :: KillEntry(e)
    requires ok <==> !AnyWaitFails(before, rounds(n).waits) && !AnyRefused(KeptAll(before, rounds(n).waits), rounds(n).refuses)
    requires ok ==> now == SignalledAll(KeptAll(before, rounds(n).waits), rounds(n).refuses)
    ensures Smooth(rounds) ==> ok
    ensures Stubborn(before, rounds, n) && ok ==> Stubborn(now, rounds, n + 1)
    ensures ok ==> forall e | e in now :: e.state != Running
    ensures ok && (forall e | e in before :: e.state != Running) ==> forall e | e in now :: e.state == SigkillSent
  {
    if ok {
      var left := KeptAll(before, rounds(n).waits);
      KeptAre(before, rounds(n).waits);
      SignalledAre(left, rounds(n).refuses);
      if Stubborn(before, rounds, n) {
        StillStubborn(before, left, rounds, n, now);
      }
    }
  }

  lemma StillStubborn(before: seq<Entry>, left: seq<Entry>, rounds: nat -> Round, n: nat, now: seq<Entry>)
    requires Stubborn(before, rounds, n)
    requires forall e | e in left :: e in before && rounds(n).waits(e.pid) == NoChange
    requires forall e | e in now :: exists d :: d in left && d.pid == e.pid
    ensures Stubborn(now, rounds, n + 1)
  {
    forall e | e in now ensures forall k | 0 <= k < n + 1 :: rounds(k).waits(e.pid) == NoChange {
      var d :| d in left && d.pid == e.pid;
    }
  }

  /** When no fork fails, entry i of a list that is new has the process id of fork i. */
  lemma {:induction false} StartedAt(es: seq<Entry>, forks: nat -> int, n: nat, i: nat)
    requires i < |es| && forall k | 0 <= k < |es| :: es[k].state == Initialized && forks(n + k) != -1
    ensures StartedAll(es, forks, n)[i] == es[i].(state := Running, pid := forks(n + i))
    decreases |es|
  {
    if i > 0 {
      forall k | 0 <= k < |es[1..]| ensures es[1..][k].state == Initialized && forks(n + 1 + k) != -1 {
        assert es[1..][k] == es[k + 1] && forks(n + (k + 1)) != -1;
      }
      StartedAt(es[1..], forks, n + 1, i - 1);
    } else {
      assert forks(n + 0) != -1;
    }
  }

  /** What waiting does to each active entry, when it does not fail. */
  lemma {:induction false} LookedAt(es: seq<Entry>, waits: int -> WaitAnswer, i: nat)
    requires i < |es|
    ensures LookedAll(es, waits)[i] == es[i] || LookedAll(es, waits)[i] == Looked(es[i], waits)
    ensures !AnyWaitFails(es, waits) ==> LookedAll(es, waits)[i] == Looked(es[i], waits)
    decreases |es|
  {
    if !WaitFails(es[0], waits) && i > 0 {
      LookedAt(es[1..], waits, i - 1);
      if AnyWaitFails(es[1..], waits) {
        var k :| 0 <= k < |es[1..]| && WaitFails(es[1..][k], waits);
        assert WaitFails(es[k + 1], waits);
      }
    }
  }

  /** No system call fails. */
  ghost predicate Smooth(rounds: nat -> Round) {
    forall n, pid :: rounds(n).waits(pid) != WaitError && !rounds(n).refuses(pid)
  }

  /** These processes were there in each of the first n rounds. */
  ghost predicate Stubborn(es: seq<Entry>, rounds: nat -> Round, n: nat) {
    forall e | e in es :: forall k | 0 <= k < n :: rounds(k).waits(e.pid) == NoChange
  }

  lemma {:induction false} SignalledIsEscalated(es: seq<Entry>, refuses: int -> bool)
    requires !AnyRefused(es, refuses)
    ensures SignalledAll(es, refuses) == EscalatedAll(es)
    decreases |es|
  {
    if es != [] {
      assert !refuses(es[0].pid);
      forall i | 0 <= i < |es[1..]| ensures !refuses(es[1..][i].pid) {
        assert es[1..][i] == es[i + 1];
      }
      SignalledIsEscalated(es[1..], refuses);
      assert EscalatedAll(es) == [Escalated(es[0])] + EscalatedAll(es[1..]);
    }
  }

  /** Signals change neither which processes there are nor their order. */
  lemma SignalledAre(es: seq<Entry>, refuses: int -> bool)
    requires !AnyRefused(es, refuses)
    ensures forall e | e in SignalledAll(es, refuses) :: e.state != Running && exists d :: d in es && d.pid == e.pid
    ensures (forall d | d in es :: d.state != Running) ==> forall e | e in SignalledAll(es, refuses) :: e.state == SigkillSent
  {
    SignalledIsEscalated(es, refuses);
    forall e | e in EscalatedAll(es)
      ensures e.state != Running && exists d :: d in es && d.pid == e.pid
      ensures (forall d | d in es :: d.state != Running) ==> e.state == SigkillSent
    {
      var i :| 0 <= i < |es| && EscalatedAll(es)[i] == e;
      assert es[i] in es && es[i].pid == e.pid;
    }
  }
}
