/**
 What every interleaving of the four forwarding loops keeps.  Seen from one direction of the
 tunnel, each system call of each thread is a step of the row of nine cells that Path lists.
 */
module TunnelFlow {
  import opened Io
  import opened Cells
  import opened Tunnel

  /** The write finds no room for what it is to write; nothing else makes it wait. */
  predicate Waits(l: Limits, me: Host, action: Action) {
    match action
    case MainWrites(outcome) =>
      && me.main.Writing? && me.main.branch.Outbound?
      && |me.pipeTo| + Moved(outcome, |me.main.chunk|) > l.pipe
    case PluginWrites(outcome) =>
      && me.plugin.Writing?
      && if me.plugin.branch.Inbound? then |me.pipeFrom| + Moved(outcome, |me.plugin.chunk|) > l.pipe
                                      else |me.wire| + Moved(outcome, |me.plugin.chunk|) > l.wire
    case _ => false
  }

  /** Bytes that a step of a host drops from the data it carries in the given direction: what a
      write that does not wait leaves over of its chunk, all of it if the write fails. */
  function Loss(l: Limits, me: Host, action: Action, branch: Branch): nat {
    match action
    case MainWrites(outcome) =>
      if me.main.Writing? && me.main.branch == branch && !Waits(l, me, action)
      then |me.main.chunk| - Moved(outcome, |me.main.chunk|) else 0
    case PluginWrites(outcome) =>
      if me.plugin.Writing? && me.plugin.branch == branch && !Waits(l, me, action)
      then |me.plugin.chunk| - Moved(outcome, |me.plugin.chunk|) else 0
    case _ => 0
  }

  /** A host's own step, seen from the direction that starts at its TAP device. */
  ghost predicate OutboundFlow(l: Limits, me: Host, peer: Host, action: Action) {
    var (me', peer') := Act(l, me, peer, action);
    FlowStep(Path(me, peer), Path(me', peer'), me.taken, me'.taken, Loss(l, me, action, Outbound))
  }

  /** The same step, seen from the direction that ends at its TAP device. */
  ghost predicate InboundFlow(l: Limits, me: Host, peer: Host, action: Action) {
    var (me', peer') := Act(l, me, peer, action);
    FlowStep(Path(peer, me), Path(peer', me'), peer.taken, peer'.taken, Loss(l, me, action, Inbound))
  }

  lemma MainReadFlows(l: Limits, me: Host, peer: Host, outcome: int)
    requires WellFormed(me)
    ensures OutboundFlow(l, me, peer, MainReads(outcome)) && InboundFlow(l, me, peer, MainReads(outcome))
  {
    var me' := MainRead(me, outcome);
    if me'.main.Writing? && !me.main.Writing? {
      if me.main.branch.Outbound? {
        assert IsEntry(Path(me, peer), Path(me', peer), me'.main.chunk);
      } else {
        FillShift(Path(peer, me), Path(peer, me'), 1, |me'.main.chunk|);
      }
    }
  }

  lemma MainWriteFlows(l: Limits, me: Host, peer: Host, outcome: int)
    requires WellFormed(me)
    ensures OutboundFlow(l, me, peer, MainWrites(outcome)) && InboundFlow(l, me, peer, MainWrites(outcome))
  {
    var me' := MainWrite(l, me, outcome);
    if me' != me {
      var keep := Moved(outcome, |me.main.chunk|);
      if me.main.branch.Outbound? {
        WholeShift(Path(me, peer), Path(me', peer), 7, keep);
      } else {
        WholeShift(Path(peer, me), Path(peer, me'), 0, keep);
      }
    }
  }

  lemma PluginReadFlows(l: Limits, me: Host, peer: Host, outcome: int)
    requires WellFormed(me)
    ensures OutboundFlow(l, me, peer, PluginReads(outcome)) && InboundFlow(l, me, peer, PluginReads(outcome))
  {
    var me' := PluginRead(me, outcome);
    if me'.plugin.Writing? && !me.plugin.Writing? {
      if me.plugin.branch.Outbound? {
        FillShift(Path(me, peer), Path(me', peer), 6, |me'.plugin.chunk|);
      } else {
        FillShift(Path(peer, me), Path(peer, me'), 3, |me'.plugin.chunk|);
      }
    }
  }

  lemma PluginWriteFlows(l: Limits, me: Host, peer: Host, outcome: int)
    requires WellFormed(me)
    ensures OutboundFlow(l, me, peer, PluginWrites(outcome)) && InboundFlow(l, me, peer, PluginWrites(outcome))
  {
    var me' := PluginWrite(l, me, outcome);
    if me' != me {
      var keep := Moved(outcome, |me.plugin.chunk|);
      if me.plugin.branch.Outbound? {
        WholeShift(Path(me, peer), Path(me', peer), 5, keep);
      } else {
        WholeShift(Path(peer, me), Path(peer, me'), 2, keep);
      }
    }
  }

  /** The network carries from one cell to the next and loses nothing. */
  lemma CarryFlows(l: Limits, me: Host, peer: Host, outcome: int)
    ensures OutboundFlow(l, me, peer, NetworkCarries(outcome)) && InboundFlow(l, me, peer, NetworkCarries(outcome))
  {
    var n := Carried(l, me, peer, outcome);
    var (me', peer') := Carry(l, me, peer, outcome);
    assert Path(peer', me') == Path(peer, me);
    CarryNothing(l, me, peer, outcome);
    if n > 0 {
      assert IsShift(Path(me, peer), Path(me', peer'), 4, n, n);
    }
  }

  /** Every system call of either host, and every step of the network, is a step of the row, in both
      directions. */
  lemma ActFlows(l: Limits, me: Host, peer: Host, action: Action)
    requires WellFormed(me)
    ensures OutboundFlow(l, me, peer, action) && InboundFlow(l, me, peer, action)
  {
    match action
    case MainReads(outcome) => MainReadFlows(l, me, peer, outcome);
    case MainWrites(outcome) => MainWriteFlows(l, me, peer, outcome);
    case PluginReads(outcome) => PluginReadFlows(l, me, peer, outcome);
    case PluginWrites(outcome) => PluginWriteFlows(l, me, peer, outcome);
    case NetworkCarries(outcome) => CarryFlows(l, me, peer, outcome);
    case _ =>
  }
}
