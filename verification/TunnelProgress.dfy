/**
 Does the tunnel drain?  Every productive call brings the data closer to the far end, so the
 threads come to a halt; and a halt means either that everything has been delivered or that the
 two threads of a host block each other at full pipes.  The two plugins do not block each other
 at full sockets, however slow the network is, because each asks its socket before its pipe.
 */
module TunnelProgress {
  import opened Io
  import opened Cells
  import opened Tunnel
  import opened TunnelRuns

  // ---- every productive call brings the end closer ----

  function Waiting(stage: Stage): nat {
    if stage.Selecting? then 1 else 0
  }

  /** Bytes between one TAP device and the other, each counted with the hops it has left. */
  function HopsLeft(me: Host, peer: Host): nat {
    Hops(Path(me, peer)) + 9 * |Cut(me.tapIn)|
  }

  function Measure(me: Host, peer: Host): nat {
    2 * (HopsLeft(me, peer) + HopsLeft(peer, me))
    + Waiting(me.main) + Waiting(me.plugin) + Waiting(peer.main) + Waiting(peer.plugin)
  }

  /** A call that moves its thread on: it is not blocked and, if a read, does not fail. */
  predicate Productive(l: Limits, me: Host, peer: Host, action: Action) {
    && !action.FrameArrives?
    && Act(l, me, peer, action) != (me, peer)
    && (action.MainReads? || action.PluginReads? ==> action.outcome > 0)
  }

  lemma SelectProgress(l: Limits, me: Host, peer: Host, action: Action)
    requires action.MainSelects? || action.PluginSelects?
    requires Productive(l, me, peer, action)
    ensures var (me', peer') := Act(l, me, peer, action);
            Measure(me', peer') < Measure(me, peer)
  {
    var (me', peer') := Act(l, me, peer, action);
    assert Path(me', peer') == Path(me, peer) && Path(peer', me') == Path(peer, me);
  }

  lemma CutHead(frames: seq<Frame>, n: nat)
    requires frames != [] && n <= |CutFrame(frames[0])|
    ensures |Cut(frames[1..])| + n <= |Cut(frames)|
  {
  }

  lemma FrameReadProgress(l: Limits, me: Host, peer: Host, outcome: int)
    requires me.main == Reading(Outbound) && me.tapIn != [] && outcome > 0
    ensures Measure(MainRead(me, outcome), peer) < Measure(me, peer)
  {
    var me', row := MainRead(me, outcome), Path(me, peer);
    var chunk := me'.main.chunk;
    assert Path(me', peer) == row[8 := chunk] && Path(peer, me') == Path(peer, me);
    EntryHops(row, chunk);
    CutHead(me.tapIn, |chunk|);
  }

  lemma PipeReadProgress(l: Limits, me: Host, peer: Host, outcome: int)
    requires me.main == Reading(Inbound) && me.pipeFrom != [] && outcome > 0
    ensures Measure(MainRead(me, outcome), peer) < Measure(me, peer)
  {
    var me' := MainRead(me, outcome);
    var n := |me'.main.chunk|;
    FillShift(Path(peer, me), Path(peer, me'), 1, n);
    ShiftHops(Path(peer, me), 1, n, n);
    assert Path(me', peer) == Path(me, peer);
  }

  lemma MainReadProgress(l: Limits, me: Host, peer: Host, outcome: int)
    requires WellFormed(me) && WellFormed(peer)
    requires Productive(l, me, peer, MainReads(outcome))
    ensures Measure(MainRead(me, outcome), peer) < Measure(me, peer)
  {
    if me.main.branch.Outbound? {
      FrameReadProgress(l, me, peer, outcome);
    } else {
      PipeReadProgress(l, me, peer, outcome);
    }
  }

  lemma MainWriteProgress(l: Limits, me: Host, peer: Host, outcome: int)
    requires WellFormed(me) && WellFormed(peer)
    requires Productive(l, me, peer, MainWrites(outcome))
    ensures Measure(MainWrite(l, me, outcome), peer) < Measure(me, peer)
  {
    var me', n := MainWrite(l, me, outcome), |me.main.chunk|;
    var keep := Moved(outcome, n);
    if me.main.branch.Outbound? {
      WholeShift(Path(me, peer), Path(me', peer), 7, keep);
      ShiftHops(Path(me, peer), 7, n, keep);
      assert Path(peer, me') == Path(peer, me);
    } else {
      WholeShift(Path(peer, me), Path(peer, me'), 0, keep);
      ShiftHops(Path(peer, me), 0, n, keep);
      assert Path(me', peer) == Path(me, peer);
    }
  }

  lemma PluginReadProgress(l: Limits, me: Host, peer: Host, outcome: int)
    requires WellFormed(me) && WellFormed(peer)
    requires Productive(l, me, peer, PluginReads(outcome))
    ensures Measure(PluginRead(me, outcome), peer) < Measure(me, peer)
  {
    var me' := PluginRead(me, outcome);
    var n := |me'.plugin.chunk|;
    if me.plugin.branch.Outbound? {
      FillShift(Path(me, peer), Path(me', peer), 6, n);
      ShiftHops(Path(me, peer), 6, n, n);
      assert Path(peer, me') == Path(peer, me);
    } else {
      FillShift(Path(peer, me), Path(peer, me'), 3, n);
      ShiftHops(Path(peer, me), 3, n, n);
      assert Path(me', peer) == Path(me, peer);
    }
  }

  lemma PluginWriteProgress(l: Limits, me: Host, peer: Host, outcome: int)
    requires WellFormed(me) && WellFormed(peer)
    requires Productive(l, me, peer, PluginWrites(outcome))
    ensures Measure(PluginWrite(l, me, outcome), peer) < Measure(me, peer)
  {
    var me', n := PluginWrite(l, me, outcome), |me.plugin.chunk|;
    var keep := Moved(outcome, n);
    if me.plugin.branch.Outbound? {
      WholeShift(Path(me, peer), Path(me', peer), 5, keep);
      ShiftHops(Path(me, peer), 5, n, keep);
      assert Path(peer, me') == Path(peer, me);
    } else {
      WholeShift(Path(peer, me), Path(peer, me'), 2, keep);
      ShiftHops(Path(peer, me), 2, n, keep);
      assert Path(me', peer) == Path(me, peer);
    }
  }

  lemma CarryProgress(l: Limits, me: Host, peer: Host, outcome: int)
    requires Productive(l, me, peer, NetworkCarries(outcome))
    ensures var (me', peer') := Carry(l, me, peer, outcome);
            Measure(me', peer') < Measure(me, peer)
  {
    var n := Carried(l, me, peer, outcome);
    var (me', peer') := Carry(l, me, peer, outcome);
    CarryNothing(l, me, peer, outcome);
    assert IsShift(Path(me, peer), Path(me', peer'), 4, n, n);
    ShiftHops(Path(me, peer), 4, n, n);
    assert Path(peer', me') == Path(peer, me);
  }

  /** Every productive call, short or failed writes included, strictly decreases the measure. */
  lemma Progress(l: Limits, me: Host, peer: Host, action: Action)
    requires WellFormed(me) && WellFormed(peer)
    requires Productive(l, me, peer, action)
    ensures var (me', peer') := Act(l, me, peer, action);
            Measure(me', peer') < Measure(me, peer)
  {
    match action
    case FrameArrives(frame) =>
    case MainSelects => SelectProgress(l, me, peer, action);
    case PluginSelects => SelectProgress(l, me, peer, action);
    case MainReads(outcome) => MainReadProgress(l, me, peer, outcome);
    case MainWrites(outcome) => MainWriteProgress(l, me, peer, outcome);
    case PluginReads(outcome) => PluginReadProgress(l, me, peer, outcome);
    case PluginWrites(outcome) => PluginWriteProgress(l, me, peer, outcome);
    case NetworkCarries(outcome) => CarryProgress(l, me, peer, outcome);
  }

  // ---- when no thread can move ----

  predicate MainStuck(l: Limits, me: Host) {
    || (me.main.Selecting? && me.tapIn == [] && me.pipeFrom == [])
    || MainBlocked(l, me)
  }

  predicate PluginStuck(l: Limits, me: Host) {
    || (me.plugin.Selecting? && me.inbox == [] && me.pipeTo == [])
    || PluginBlocked(l, me, Inbound)
    || PluginBlocked(l, me, Outbound)
  }

  /** The network has nothing of this host's to carry, or no room for it at the peer. */
  predicate NetworkStuck(l: Limits, me: Host, peer: Host) {
    me.wire == [] || |peer.inbox| >= l.inbox
  }

  /** Neither thread of the host moves, nor what it has sent. */
  predicate HostStuck(l: Limits, me: Host, peer: Host) {
    MainStuck(l, me) && PluginStuck(l, me) && NetworkStuck(l, me, peer)
  }

  /** The main loop sits in its write to pipe_to_plugin. */
  predicate MainBlocked(l: Limits, me: Host) {
    me.main.Writing? && me.main.branch.Outbound? && |me.pipeTo| + |me.main.chunk| > l.pipe
  }

  /** The plugin sits in its write to pipe_from_plugin, or in its send. */
  predicate PluginBlocked(l: Limits, me: Host, branch: Branch) {
    && me.plugin.Writing? && me.plugin.branch == branch
    && if branch.Inbound? then |me.pipeFrom| + |me.plugin.chunk| > l.pipe
                          else |me.wire| + |me.plugin.chunk| > l.wire
  }

  /** A call that succeeds in full, once it is not blocked. */
  predicate Full(action: Action) {
    match action
    case FrameArrives(frame) => false
    case MainSelects => true
    case PluginSelects => true
    case MainReads(outcome) => outcome >= BLOCK_SIZE
    case MainWrites(outcome) => outcome >= BLOCK_SIZE
    case PluginReads(outcome) => outcome >= BLOCK_SIZE
    case PluginWrites(outcome) => outcome >= BLOCK_SIZE
    case NetworkCarries(outcome) => outcome > 0
  }

  /** The predicate says exactly that no call of the host's two threads and no step of the network
      on its behalf does anything. */
  lemma StuckExactly(l: Limits, me: Host, peer: Host)
    requires WellFormed(me)
    ensures HostStuck(l, me, peer)
            <==> forall action :: Full(action) ==> Act(l, me, peer, action) == (me, peer)
  {
    if forall action :: Full(action) ==> Act(l, me, peer, action) == (me, peer) {
      assert Full(MainSelects) && Full(MainReads(BLOCK_SIZE)) && Full(MainWrites(BLOCK_SIZE));
      assert Act(l, me, peer, MainSelects) == (me, peer);
      assert Act(l, me, peer, MainReads(BLOCK_SIZE)) == (me, peer);
      assert Act(l, me, peer, MainWrites(BLOCK_SIZE)) == (me, peer);
      assert Full(PluginSelects) && Full(PluginReads(BLOCK_SIZE)) && Full(PluginWrites(BLOCK_SIZE));
      assert Act(l, me, peer, PluginSelects) == (me, peer);
      assert Act(l, me, peer, PluginReads(BLOCK_SIZE)) == (me, peer);
      assert Act(l, me, peer, PluginWrites(BLOCK_SIZE)) == (me, peer);
      assert Full(NetworkCarries(1)) && Act(l, me, peer, NetworkCarries(1)) == (me, peer);
      CarryNothing(l, me, peer, 1);
    }
    if HostStuck(l, me, peer) {
      forall action | Full(action) ensures Act(l, me, peer, action) == (me, peer) {
        if action.NetworkCarries? {
          CarryNothing(l, me, peer, action.outcome);
        }
      }
    }
  }

  ghost predicate Stuck(l: Limits, s: State) {
    HostStuck(l, s.client, s.server) && HostStuck(l, s.server, s.client)
  }

  /** A host's two threads wait for each other: the main loop for room in pipe_to_plugin, which only
      the plugin empties, and the plugin for room in pipe_from_plugin, which only the main loop empties. */
  predicate HostDeadlock(l: Limits, me: Host) {
    MainBlocked(l, me) && PluginBlocked(l, me, Inbound)
  }

  /** Nothing left to forward in either direction. */
  predicate Drained(me: Host) {
    && me.tapIn == [] && me.pipeTo == [] && me.pipeFrom == [] && me.wire == [] && me.inbox == []
    && me.main.Selecting? && me.plugin.Selecting?
  }

  // ---- the order of the tests keeps the sockets apart ----

  /** The two plugins wait in their sends, and the network can bring neither of them anything. */
  predicate WireDeadlock(l: Limits, s: State) {
    && PluginBlocked(l, s.client, Outbound) && PluginBlocked(l, s.server, Outbound)
    && NetworkStuck(l, s.client, s.server) && NetworkStuck(l, s.server, s.client)
  }

  predicate Sending(me: Host) {
    !me.plugin.Selecting? && me.plugin.branch == Outbound
  }

  /** A plugin turns to its pipe only when nothing has come for it.  Of two that have both turned,
      the first has sent nothing since, so when the second turned, all that was still coming for it
      was what the socket of the first held. */
  predicate OneStreamFits(l: Limits, a: Host, b: Host) {
    Sending(a) && Sending(b) ==> |a.wire| + |b.inbox| <= l.wire || |b.wire| + |a.inbox| <= l.wire
  }

  /** No queue holds more than its limit, nor does the plugin hold more than a pipe does. */
  predicate WithinLimits(l: Limits, me: Host) {
    |me.pipeTo| <= l.pipe && |Held(me.plugin, Outbound)| <= l.pipe && |me.wire| <= l.wire
  }

  lemma SocketStep(l: Limits, me: Host, peer: Host, action: Action)
    requires OneStreamFits(l, me, peer) && WithinLimits(l, me) && WithinLimits(l, peer)
    ensures var (me', peer') := Act(l, me, peer, action);
            OneStreamFits(l, me', peer') && WithinLimits(l, me') && WithinLimits(l, peer')
  {
  }

  lemma {:induction false} SocketInvariant(l: Limits, run: seq<Event>)
    ensures var s := Run(l, START, run);
            OneStreamFits(l, s.client, s.server) && WithinLimits(l, s.client) && WithinLimits(l, s.server)
  {
    if run != [] {
      var before, e := run[..|run| - 1], run[|run| - 1];
      SocketInvariant(l, before);
      var s := Run(l, START, before);
      SocketStep(l, s.Of(e.side), s.Of(Other(e.side)), e.action);
    }
  }

  /** Whatever the schedule and the results of the calls, the two sends do not wait for each other,
      as long as both ends of an empty stream have room for what one read of the pipe can return. */
  lemma NoWireDeadlock(l: Limits, run: seq<Event>)
    requires Min(l.pipe, BLOCK_SIZE - 1) <= Min(l.wire, l.inbox)
    ensures !WireDeadlock(l, Run(l, START, run))
  {
    SocketInvariant(l, run);
    EveryByteAccounted(l, run, Client);
  }

  // ---- what a halt means ----

  /** Pipes and both ends of the streams have room for whatever one read returns. */
  predicate Roomy(l: Limits) {
    l.pipe >= BLOCK_SIZE - 1 && l.wire >= BLOCK_SIZE - 1 && l.inbox >= BLOCK_SIZE - 1
  }

  lemma HaltedState(l: Limits, s: State)
    requires Good(s) && Stuck(l, s) && !WireDeadlock(l, s) && Roomy(l)
    ensures (Drained(s.client) && Drained(s.server)) || HostDeadlock(l, s.client) || HostDeadlock(l, s.server)
  {
  }

  /** A run that cannot go on has drained the tunnel or deadlocked a host, and not both. */
  lemma HaltExplained(l: Limits, run: seq<Event>)
    requires Roomy(l) && Stuck(l, Run(l, START, run))
    ensures var s := Run(l, START, run);
            Drained(s.client) && Drained(s.server) <==> !HostDeadlock(l, s.client) && !HostDeadlock(l, s.server)
  {
    NoWireDeadlock(l, run);
    EveryByteAccounted(l, run, Client);
    HaltedState(l, Run(l, START, run));
  }

  /** The deadlock is for ever as long as the host's own writes complete or block: its reads and all
      that the other host and the network do may go as they like. */
  lemma HostDeadlockStays(l: Limits, me: Host, peer: Host, action: Action)
    requires HostDeadlock(l, me) && WellFormed(me)
    ensures Complete(action) ==>
              var me' := Act(l, me, peer, action).0;
              HostDeadlock(l, me') && me'.delivered == me.delivered && me'.taken == me.taken
    ensures var me' := Act(l, peer, me, action).1;
            HostDeadlock(l, me') && me'.delivered == me.delivered && me'.taken == me.taken
  {
  }
}
