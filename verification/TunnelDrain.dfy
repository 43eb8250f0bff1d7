/**
 Draining over whole runs: when the tunnel halts, what it has delivered; how much room rules a
 deadlock out; and what the order of the tests costs under load.
 */
module TunnelDrain {
  import opened Io
  import opened Cells
  import opened Tunnel
  import opened TunnelRuns
  import opened TunnelProgress

  ghost predicate Deadlocked(l: Limits, s: State) {
    HostDeadlock(l, s.client) || HostDeadlock(l, s.server)
  }

  /** Everything that arrived at one device, cut to what a read takes, has come out at the other. */
  ghost predicate AllDelivered(s: State, run: seq<Event>) {
    forall from: Side :: s.Of(Other(from)).delivered == Cut(ArrivedFrames(run, from))
  }

  /** What was delivered, what is on its way and what waits at the device add up to what arrived. */
  lemma WhereEverythingIs(l: Limits, run: seq<Event>, from: Side)
    requires CompleteWrites(run) && WholeReads(l, START, run)
    ensures var s := Run(l, START, run);
            Flat(Way(s, from)) + Cut(s.Of(from).tapIn) == Cut(ArrivedFrames(run, from))
  {
    Conservation(l, run, from);
    TakenFromFrames(l, run, from);
  }

  lemma DrainedRow(row: Row)
    requires |row| == 9 && forall i :: 1 <= i < 9 ==> row[i] == []
    ensures Flat(row) == row[0]
  {
    NineCells(row);
  }

  lemma DrainedWay(s: State, from: Side)
    requires Drained(s.client) && Drained(s.server)
    ensures Flat(Way(s, from)) + Cut(s.Of(from).tapIn) == s.Of(Other(from)).delivered
  {
    DrainedRow(Way(s, from));
    assert Cut(s.Of(from).tapIn) == [];
  }

  lemma HeldRow(row: Row, i: nat)
    requires |row| == 9 && 1 <= i < 9 && row[i] != []
    ensures |Flat(row)| > |row[0]|
  {
    NineCells(row);
  }

  /** When nothing can move any more, everything that arrived has been delivered exactly if
      there is no deadlock. */
  lemma HaltDelivers(l: Limits, run: seq<Event>)
    requires CompleteWrites(run) && WholeReads(l, START, run)
    requires Roomy(l) && Stuck(l, Run(l, START, run))
    ensures AllDelivered(Run(l, START, run), run) <==> !Deadlocked(l, Run(l, START, run))
  {
    var s := Run(l, START, run);
    EveryByteAccounted(l, run, Client);
    HaltExplained(l, run);
    if !Deadlocked(l, s) {
      DrainedDelivers(l, run, Client);
      DrainedDelivers(l, run, Server);
    } else {
      var from := DeadlockHolds(l, s);
      WhereEverythingIs(l, run, from);
    }
  }

  lemma DrainedDelivers(l: Limits, run: seq<Event>, from: Side)
    requires CompleteWrites(run) && WholeReads(l, START, run)
    requires Drained(Run(l, START, run).client) && Drained(Run(l, START, run).server)
    ensures Run(l, START, run).Of(Other(from)).delivered == Cut(ArrivedFrames(run, from))
  {
    WhereEverythingIs(l, run, from);
    DrainedWay(Run(l, START, run), from);
  }

  /** The frames themselves come through a halted, undisturbed tunnel exactly when none of them is
      longer than a read of the device: the reads cut off the rest. */
  lemma FramesSurvive(l: Limits, run: seq<Event>, from: Side)
    requires CompleteWrites(run) && WholeReads(l, START, run)
    requires Roomy(l) && Stuck(l, Run(l, START, run)) && !Deadlocked(l, Run(l, START, run))
    ensures var frames := ArrivedFrames(run, from);
            Run(l, START, run).Of(Other(from)).delivered == Whole(frames)
            <==> forall i :: 0 <= i < |frames| ==> |frames[i]| <= 1504
  {
    HaltDelivers(l, run);
    CutIsWhole(ArrivedFrames(run, from));
  }

  /** A deadlock keeps data back in some direction. */
  lemma DeadlockHolds(l: Limits, s: State) returns (from: Side)
    requires Good(s) && Deadlocked(l, s)
    ensures |Flat(Way(s, from))| > |s.Of(Other(from)).delivered|
  {
    from := if HostDeadlock(l, s.client) then Client else Server;
    HeldRow(Way(s, from), 8);
  }

  // ---- a deadlock is for ever ----

  /** The writes of one host are complete; nothing is said about its reads, about the other host or
      about the network. */
  ghost predicate CompleteWritesOf(run: seq<Event>, side: Side) {
    forall i :: 0 <= i < |run| && run[i].side == side ==> Complete(run[i].action)
  }

  /** Nothing that leaves a deadlocked host's own writes complete ever frees it. */
  lemma {:induction false} DeadlockForEver(l: Limits, s: State, run: seq<Event>, side: Side)
    requires Good(s) && HostDeadlock(l, s.Of(side)) && CompleteWritesOf(run, side)
    ensures Good(Run(l, s, run)) && HostDeadlock(l, Run(l, s, run).Of(side))
    ensures Run(l, s, run).Of(side).delivered == s.Of(side).delivered
    ensures Run(l, s, run).Of(side).taken == s.Of(side).taken
  {
    if run != [] {
      var before, e := run[..|run| - 1], run[|run| - 1];
      DeadlockForEver(l, s, before, side);
      var t := Run(l, s, before);
      StepGood(l, t, e);
      HostDeadlockStays(l, t.Of(side), t.Of(Other(side)), e.action);
    }
  }

  // ---- enough room ----

  /** Bytes that arrived in a direction, or were taken, and are not delivered yet. */
  function Pending(s: State, from: Side): int {
    |s.Of(from).taken| + |Cut(s.Of(from).tapIn)| - |s.Of(Other(from)).delivered|
  }

  /** In one direction at least, a pipe holds all that is pending. */
  ghost predicate Room(l: Limits, s: State) {
    exists from: Side :: Pending(s, from) <= l.pipe
  }

  /** A deadlocked host sits between two full pipes, one in each direction. */
  lemma DeadlockNeedsBoth(l: Limits, s: State, from: Side)
    requires Good(s) && Deadlocked(l, s)
    requires |Flat(Way(s, from))| <= |s.Of(from).taken|
    ensures Pending(s, from) > l.pipe
  {
    NineCells(Way(s, from));
  }

  predicate NoArrivals(run: seq<Event>) {
    forall i :: 0 <= i < |run| ==> !run[i].action.FrameArrives?
  }

  lemma PendingAct(l: Limits, me: Host, peer: Host, action: Action)
    requires !action.FrameArrives?
    ensures var (me', peer') := Act(l, me, peer, action);
            && |me'.taken| + |Cut(me'.tapIn)| <= |me.taken| + |Cut(me.tapIn)|
            && |me'.delivered| >= |me.delivered|
            && peer'.taken == peer.taken && peer'.tapIn == peer.tapIn && peer'.delivered == peer.delivered
  {
    if action.MainReads? && me.main == Reading(Outbound) && me.tapIn != [] {
      CutHead(me.tapIn, Moved(action.outcome, Min(BLOCK_SIZE - 1, |me.tapIn[0]|)));
    }
  }

  lemma {:induction false} PendingShrinks(l: Limits, s: State, run: seq<Event>, from: Side)
    requires NoArrivals(run)
    ensures Pending(Run(l, s, run), from) <= Pending(s, from)
  {
    if run != [] {
      var before, e := run[..|run| - 1], run[|run| - 1];
      PendingShrinks(l, s, before, from);
      var t := Run(l, s, before);
      PendingAct(l, t.Of(e.side), t.Of(Other(e.side)), e.action);
    }
  }

  lemma {:induction false} RunAppend(l: Limits, s: State, r1: seq<Event>, r2: seq<Event>)
    ensures Run(l, s, r1 + r2) == Run(l, Run(l, s, r1), r2)
  {
    if r2 == [] {
      assert r1 + r2 == r1;
    } else {
      assert (r1 + r2)[..|r1 + r2| - 1] == r1 + r2[..|r2| - 1];
      RunAppend(l, s, r1, r2[..|r2| - 1]);
    }
  }

  lemma {:induction false} ArrivalsAppend(r1: seq<Event>, r2: seq<Event>, side: Side)
    requires NoArrivals(r2)
    ensures ArrivedFrames(r1 + r2, side) == ArrivedFrames(r1, side)
  {
    if r2 == [] {
      assert r1 + r2 == r1;
    } else {
      assert (r1 + r2)[..|r1 + r2| - 1] == r1 + r2[..|r2| - 1];
      ArrivalsAppend(r1, r2[..|r2| - 1], side);
      assert !r2[|r2| - 1].action.FrameArrives?;
    }
  }

  ghost predicate AllProductive(l: Limits, s: State, run: seq<Event>) {
    forall i :: 0 <= i < |run| ==>
      var t := Run(l, s, run[..i]);
      Productive(l, t.Of(run[i].side), t.Of(Other(run[i].side)), run[i].action)
  }

  /** After the last arrival, only so many productive calls are left to make. */
  lemma {:induction false} ProductiveRunsAreShort(l: Limits, s: State, run: seq<Event>)
    requires Good(s) && AllProductive(l, s, run)
    ensures Good(Run(l, s, run))
    ensures |run| + Measure(Run(l, s, run).client, Run(l, s, run).server) <= Measure(s.client, s.server)
  {
    if run != [] {
      var before, e := run[..|run| - 1], run[|run| - 1];
      forall i | 0 <= i < |before| ensures before[..i] == run[..i] {}
      ProductiveRunsAreShort(l, s, before);
      var t := Run(l, s, before);
      StepGood(l, t, e);
      Progress(l, t.Of(e.side), t.Of(Other(e.side)), e.action);
      MeasureSymmetric(t.client, t.server);
      MeasureSymmetric(Step(l, t, e).client, Step(l, t, e).server);
    }
  }

  lemma MeasureSymmetric(a: Host, b: Host)
    ensures Measure(a, b) == Measure(b, a)
  {
  }

  /** The tunnel drains: once frames stop arriving, with no more bytes pending in one of the two
      directions than a pipe holds, every schedule of productive calls is bounded; and wherever any
      schedule can go no further both devices have received everything, however often its reads of
      pipes and sockets were short or failed. */
  lemma TunnelDrains(l: Limits, past: seq<Event>, rest: seq<Event>)
    requires CompleteWrites(past + rest) && WholeReads(l, START, past + rest) && NoArrivals(rest)
    requires Roomy(l) && Room(l, Run(l, START, past))
    ensures AllProductive(l, Run(l, START, past), rest) ==>
              |rest| <= Measure(Run(l, START, past).client, Run(l, START, past).server)
    ensures var end := Run(l, START, past + rest);
            Stuck(l, end) ==>
              forall from: Side :: end.Of(Other(from)).delivered == Cut(ArrivedFrames(past, from))
  {
    EveryByteAccounted(l, past, Client);
    if AllProductive(l, Run(l, START, past), rest) {
      ProductiveRunsAreShort(l, Run(l, START, past), rest);
    }
    if Stuck(l, Run(l, START, past + rest)) {
      RoomAtTheEnd(l, past, rest);
      HaltDelivers(l, past + rest);
      ArrivalsAppend(past, rest, Client);
      ArrivalsAppend(past, rest, Server);
    }
  }

  lemma RoomAtTheEnd(l: Limits, past: seq<Event>, rest: seq<Event>)
    requires NoArrivals(rest) && Room(l, Run(l, START, past))
    ensures !Deadlocked(l, Run(l, START, past + rest))
  {
    var s, end := Run(l, START, past), Run(l, START, past + rest);
    var from: Side :| Pending(s, from) <= l.pipe;
    RunAppend(l, START, past, rest);
    PendingShrinks(l, s, rest, from);
    EveryByteAccounted(l, past + rest, from);
    if Deadlocked(l, end) {
      DeadlockNeedsBoth(l, end, from);
    }
  }

  // ---- what the order of the tests costs ----

  /** Whenever a host's main loop selects, a frame is waiting at its device. */
  ghost predicate Flooded(l: Limits, s: State, run: seq<Event>, side: Side) {
    forall i :: 0 <= i < |run| && run[i] == Event(side, MainSelects) ==> Run(l, s, run[..i]).Of(side).tapIn != []
  }

  /** The main loop is not on its way to deliver. */
  predicate NotDelivering(me: Host) {
    me.main.Selecting? || me.main.branch == Outbound
  }

  lemma FloodStep(l: Limits, me: Host, peer: Host, action: Action)
    requires NotDelivering(me) && (action == MainSelects ==> me.tapIn != [])
    ensures var me' := Act(l, me, peer, action).0;
            NotDelivering(me') && me'.delivered == me.delivered && me.pipeFrom <= me'.pipeFrom
  {
  }

  lemma FloodByPeer(l: Limits, me: Host, peer: Host, action: Action)
    ensures var me' := Act(l, peer, me, action).1;
            me'.main == me.main && me'.delivered == me.delivered && me'.pipeFrom == me.pipeFrom
  {
  }

  /** The main loop asks the device first, so a flood of frames keeps everything that arrives from
      the peer in the pipe. */
  lemma {:induction false} FloodStarvesDelivery(l: Limits, s: State, run: seq<Event>, side: Side)
    requires NotDelivering(s.Of(side)) && Flooded(l, s, run, side)
    ensures NotDelivering(Run(l, s, run).Of(side))
    ensures Run(l, s, run).Of(side).delivered == s.Of(side).delivered
    ensures s.Of(side).pipeFrom <= Run(l, s, run).Of(side).pipeFrom
  {
    if run != [] {
      var before, e := run[..|run| - 1], run[|run| - 1];
      forall i | 0 <= i < |before| ensures before[..i] == run[..i] {}
      FloodStarvesDelivery(l, s, before, side);
      var t := Run(l, s, before);
      if e.side == side {
        FloodStep(l, t.Of(side), t.Of(Other(side)), e.action);
      } else {
        FloodByPeer(l, t.Of(side), t.Of(Other(side)), e.action);
      }
    }
  }

  /** Whenever a host's plugin selects, the socket has data for it. */
  ghost predicate Pressed(l: Limits, s: State, run: seq<Event>, side: Side) {
    forall i :: 0 <= i < |run| && run[i] == Event(side, PluginSelects) ==> Run(l, s, run[..i]).Of(side).inbox != []
  }

  lemma PressStep(l: Limits, me: Host, peer: Host, action: Action)
    requires !Sending(me) && (action == PluginSelects ==> me.inbox != [])
    ensures var me' := Act(l, me, peer, action).0;
            !Sending(me') && me.pipeTo <= me'.pipeTo && |me'.wire| <= |me.wire|
  {
  }

  lemma PressByPeer(l: Limits, me: Host, peer: Host, action: Action)
    requires !Sending(me)
    ensures var me' := Act(l, peer, me, action).1;
            !Sending(me') && me'.pipeTo == me.pipeTo && |me'.wire| <= |me.wire|
  {
  }

  /** The plugin asks the socket first, so steady traffic from the peer keeps everything that goes
      to the peer in the other pipe. */
  lemma {:induction false} TrafficStarvesSending(l: Limits, s: State, run: seq<Event>, side: Side)
    requires !Sending(s.Of(side)) && Pressed(l, s, run, side)
    ensures !Sending(Run(l, s, run).Of(side))
    ensures |Run(l, s, run).Of(side).wire| <= |s.Of(side).wire|
    ensures s.Of(side).pipeTo <= Run(l, s, run).Of(side).pipeTo
  {
    if run != [] {
      var before, e := run[..|run| - 1], run[|run| - 1];
      forall i | 0 <= i < |before| ensures before[..i] == run[..i] {}
      TrafficStarvesSending(l, s, before, side);
      var t := Run(l, s, before);
      if e.side == side {
        PressStep(l, t.Of(side), t.Of(Other(side)), e.action);
      } else {
        PressByPeer(l, t.Of(side), t.Of(Other(side)), e.action);
      }
    }
  }
}
