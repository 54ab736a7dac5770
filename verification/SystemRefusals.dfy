/**
  A node that loses its connection says NACK at once and goes on until the server has accepted
  it again, in every run of the whole system.
*/
module SystemRefusals {
  import opened Tlv
  import opened Ffsplit
  import opened Qdevice
  import opened System
  import Qnetd = FfsplitVotes

  /** An event of one node. */
  datatype NodeEvent = At(node: nat, event: Event) | Nowhere

  /** The event that a step is for the node it concerns. */
  function EventOf(s: Sys, a: Action): NodeEvent
    requires Enabled(s, a)
  {
    match a
    case Happens(n, e) => At(n, e)
    case Connects(n, _) => At(n, Connect)
    case Receives(n) => At(n, Receive(s.conns[s.sock[n]].toDevice[0]))
    case Drops(n, _) => At(n, Disconnect)
    case _ => Nowhere
  }

  function DevicesAfter(ds: map<nat, Device>, e: NodeEvent): map<nat, Device>
    requires e.At? ==> e.node in ds
  {
    if e.At? then ds[e.node := Step(ds[e.node], e.event).0] else ds
  }

  /** A step changes the node it is for as the node's event does, and no other node. */
  lemma StepIsEvent(s: Sys, a: Action)
    requires Enabled(s, a)
    ensures EventOf(s, a).At? ==> EventOf(s, a).node in s.devices
    ensures Next(s, a).devices == DevicesAfter(s.devices, EventOf(s, a))
  {
  }

  /** The node gives up its open connection when the event ends it. */
  lemma LosingCloses(s: Sys, n: nat, kept: nat)
    requires Connected(s, n)
    ensures kept <= |s.conns[s.sock[n]].toServer| ==>
              n !in Next(s, Drops(n, kept)).sock && CastsNack(Next(s, Drops(n, kept)).devices[n])
    ensures s.conns[s.sock[n]].toDevice != [] && EndsConnection(s.devices[n], s.conns[s.sock[n]].toDevice[0]) ==>
              n !in Next(s, Receives(n)).sock && CastsNack(Next(s, Receives(n)).devices[n])
  {
  }

  /** The state of one node after a step. */
  lemma NodeAfter(ds: map<nat, Device>, e: NodeEvent, n: nat)
    requires n in ds && (e.At? ==> e.node in ds)
    ensures n in DevicesAfter(ds, e)
    ensures DevicesAfter(ds, e)[n] == if e.At? && e.node == n then Step(ds[n], e.event).0 else ds[n]
  {
  }

  /** The events that steps bring are possible ones for a node with a connection. */
  predicate Real(ds: map<nat, Device>, e: NodeEvent) {
    e.At? && e.node in ds && ds[e.node].link != NotConnected ==> Possible(ds[e.node], e.event)
  }

  lemma StepIsReal(s: Sys, a: Action)
    requires Enabled(s, a)
    ensures Real(s.devices, EventOf(s, a))
  {
  }

  /** An event that ends the connection of n leaves n casting NACK. */
  lemma LosingCastsNack(ds: map<nat, Device>, e: NodeEvent, n: nat)
    requires n in ds && (e.At? ==> e.node in ds) && Real(ds, e) && ds[n].link != NotConnected
    ensures n in DevicesAfter(ds, e)
    ensures DevicesAfter(ds, e)[n].link == NotConnected ==> CastsNack(DevicesAfter(ds, e)[n])
  {
    NodeAfter(ds, e, n);
    if e.At? && e.node == n {
      EndingCastsNack(ds[n], e.event);
    }
  }

  lemma RefusalStays(ds: map<nat, Device>, e: NodeEvent, n: nat)
    requires n in ds && (e.At? ==> e.node in ds) && SaysNack(ds[n]) && ds[n].link != Established
    ensures n in DevicesAfter(ds, e)
    ensures DevicesAfter(ds, e)[n].link != Established ==> SaysNack(DevicesAfter(ds, e)[n])
  {
    NodeAfter(ds, e, n);
    if e.At? && e.node == n && Possible(ds[n], e.event) {
      NackStays(ds[n], e.event);
    }
  }

  /** Node n is never established from here to the end. */
  predicate StaysApart(s: Sys, run: seq<Action>, n: nat)
    requires SystemRun(s, run)
    decreases |run|
  {
    (n in s.devices ==> s.devices[n].link != Established) && (run == [] || StaysApart(Next(s, run[0]), run[1..], n))
  }

  lemma {:induction false} RefusalStaysOn(s: Sys, run: seq<Action>, n: nat)
    requires SystemRun(s, run) && n in s.devices && SaysNack(s.devices[n]) && StaysApart(s, run, n)
    ensures n in EndOf(s, run).devices && SaysNack(EndOf(s, run).devices[n])
    decreases |run|
  {
    if run != [] {
      StepIsEvent(s, run[0]);
      RefusalStays(s.devices, EventOf(s, run[0]), n);
      RefusalStaysOn(Next(s, run[0]), run[1..], n);
    }
  }

  /** From the step that ends its connection until the next one is established, whatever happens
      anywhere, the node says NACK and casts it whenever it is not paused. */
  lemma LostNodeRefuses(s: Sys, a: Action, run: seq<Action>, n: nat)
    requires Enabled(s, a) && n in s.devices && s.devices[n].link != NotConnected
    requires n in Next(s, a).devices && Next(s, a).devices[n].link == NotConnected
    requires SystemRun(Next(s, a), run) && StaysApart(Next(s, a), run, n)
    ensures var t := EndOf(Next(s, a), run);
            n in t.devices && SaysNack(t.devices[n]) && (!t.devices[n].paused ==> CastsNack(t.devices[n]))
  {
    StepIsEvent(s, a);
    StepIsReal(s, a);
    LosingCastsNack(s.devices, EventOf(s, a), n);
    RefusalStaysOn(Next(s, a), run, n);
  }
}
