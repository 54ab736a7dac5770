/**
  No split brain: over every run of the whole system, all nodes that vote ACK belong to one
  partition chosen by one decision of the server.
*/
module NoSplitBrain {
  import opened Tlv
  import opened Ffsplit
  import opened Qdevice
  import opened System
  import opened SystemInvariant
  import opened Peers
  import opened NodeSteps
  import opened ServerSteps
  import opened ConnectionSteps

  lemma StartedInv(d: Device)
    requires Started(d) && d.id in d.config
    ensures NodeInv(d, map[d.ring := 0], 1)
  {
  }

  lemma InitialInv(s: Sys)
    requires Initial(s)
    ensures SysInv(s)
  {
    forall n | n in s.devices ensures NodeOk(s, n) && UnacceptedOk(s, n) {
      StartedInv(s.devices[n]);
    }
  }

  lemma StepKeeps(s: Sys, a: Action, t: Sys)
    requires SysInv(s) && Enabled(s, a) && t == Next(s, a)
    ensures SysInv(t)
  {
    match a
    case Happens(n, e) => HappensKeeps(s, n, e, t);
    case Connects(n, k) => ConnectsKeeps(s, n, k);
    case Receives(n) => ReceivesKeeps(s, n);
    case Drops(n, kept) => DropsKeeps(s, n, kept);
    case Serves(k) => ServesKeeps(s, k, t);
    case Notices(k) => NoticesKeeps(s, k, t);
  }

  lemma ServesKeeps(s: Sys, k: nat, t: Sys)
    requires SysInv(s) && k in s.conns && s.conns[k].toServer != [] && t == ServerServes(s, k)
    ensures SysInv(t)
  {
    if Accepted(s, k) {
      ServeClientKeeps(s, k, Find(s.server.clients, s.conns[k].owner), t);
    } else {
      ServesNewKeeps(s, k, t);
    }
  }

  lemma {:induction false} RunKeeps(s: Sys, run: seq<Action>)
    requires SysInv(s) && SystemRun(s, run)
    ensures SysInv(EndOf(s, run))
    decreases |run|
  {
    if run != [] {
      StepKeeps(s, run[0], Next(s, run[0]));
      RunKeeps(Next(s, run[0]), run[1..]);
    }
  }

  /** Every node that votes ACK is in the partition g, polls with the ring id that its
      reporter had, and has sent that ring id to the server last. */
  ghost predicate OnePartition(s: Sys, g: Option<Candidate>) {
    forall n | n in s.devices && CastsAck(s.devices[n]) ::
      && g.Some? && n in g.value.members
      && s.devices[n].pollRing == s.devices[n].lastSentRing == g.value.ring
  }

  lemma InvMeansOnePartition(s: Sys)
    requires SysInv(s)
    ensures OnePartition(s, s.granted)
  {
    forall n | n in s.devices && CastsAck(s.devices[n])
      ensures s.granted.Some? && n in s.granted.value.members
      ensures s.devices[n].pollRing == s.devices[n].lastSentRing == s.granted.value.ring
    {
      assert NodeOk(s, n) && UnacceptedOk(s, n);
      assert n in s.sock && Live(s, n);
      var c :| c in s.server.clients && c.id == n;
      assert PeerOk(s, c);
    }
  }

  /** In every reachable state of server, nodes and channels, all nodes that vote ACK are in
      one list chosen by one decision, which has at least half of the configured nodes. */
  lemma NoSplitBrain(s: Sys, run: seq<Action>)
    requires Initial(s) && SystemRun(s, run)
    ensures var t := EndOf(s, run);
            OnePartition(t, t.granted) && Fair(t.granted)
  {
    InitialInv(s);
    RunKeeps(s, run);
    InvMeansOnePartition(EndOf(s, run));
  }

  /** In particular two nodes never vote ACK for different rings, and both are in the list of the
      last decision that released ACKs: partitions without a common node never both have one. */
  lemma {:induction false} VotersAgree(s: Sys, run: seq<Action>, m: nat, n: nat)
    requires Initial(s) && SystemRun(s, run)
    requires m in EndOf(s, run).devices && n in EndOf(s, run).devices
    requires CastsAck(EndOf(s, run).devices[m]) && CastsAck(EndOf(s, run).devices[n])
    ensures EndOf(s, run).devices[m].pollRing == EndOf(s, run).devices[n].pollRing
    ensures var g := EndOf(s, run).granted;
            g.Some? && m in g.value.members && n in g.value.members && EndOf(s, run).devices[m].pollRing == g.value.ring
  {
    NoSplitBrain(s, run);
  }
}
