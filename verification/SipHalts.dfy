/**
 Two SIP hosts over whole runs, under any schedule and any network: what they keep, that they come
 to a halt, and what they have delivered then.
 */
module SipHalts {
  import opened Bits
  import opened Io
  import opened Cells
  import opened Tunnel
  import opened TunnelRuns
  import opened TunnelProgress
  import opened SipHosts

  // ---- whole runs ----

  datatype Pair = Pair(client: Node, server: Node) {
    function Of(side: Side): Node {
      if side.Client? then client else server
    }
  }

  datatype Happening = Happening(side: Side, deed: Deed)

  ghost predicate Fine(p: Pair) {
    NodeGood(p.client) && NodeGood(p.server)
  }

  ghost function Next(l: Limits, p: Pair, h: Happening): (p': Pair)
    requires Fine(p)
    ensures Fine(p')
  {
    var me, peer := p.Of(h.side), p.Of(Other(h.side));
    DoGood(l, me, peer, h.deed);
    var me' := Do(l, me, peer, h.deed);
    if h.side.Client? then Pair(me', peer) else Pair(peer, me')
  }

  ghost function Play(l: Limits, p: Pair, run: seq<Happening>): (p': Pair)
    requires Fine(p)
    ensures Fine(p')
  {
    if run == [] then p else Next(l, Play(l, p, run[..|run| - 1]), run[|run| - 1])
  }

  const BOTH_IDLE := Pair(IDLE_NODE, IDLE_NODE)

  ghost predicate CompleteRun(run: seq<Happening>) {
    forall i :: 0 <= i < |run| ==> CompleteDeed(run[i].deed)
  }

  /** Both rows hold what has entered them, with some of it left out, and all of it if no write has
      lost anything. */
  ghost predicate Kept(n: Node, complete: bool) {
    && Subsequence(Flat(OutRow(n)), n.host.taken) && Subsequence(Flat(InRow(n)), Flatten(n.heard))
    && (complete ==> Flat(OutRow(n)) == n.host.taken && Flat(InRow(n)) == Flatten(n.heard))
  }

  lemma RowKept(row: Row, row': Row, entered: seq<byte>, entered': seq<byte>, d: Deed, complete: bool)
    requires Flows(row, row', entered, entered', d) && (complete ==> CompleteDeed(d))
    requires Subsequence(Flat(row), entered) && (complete ==> Flat(row) == entered)
    ensures Subsequence(Flat(row'), entered') && (complete ==> Flat(row') == entered')
  {
    var lost: nat :| FlowStep(row, row', entered, entered', lost) && (CompleteDeed(d) ==> lost == 0);
    FlowKeeps(row, row', entered, entered', lost);
    if complete {
      SubsequenceLength(Flat(row'), entered');
    }
  }

  lemma NodeKept(l: Limits, me: Node, peer: Node, d: Deed, complete: bool)
    requires NodeGood(me) && NodeGood(peer) && Kept(me, complete) && (complete ==> CompleteDeed(d))
    ensures Kept(Do(l, me, peer, d), complete)
  {
    var me' := Do(l, me, peer, d);
    DoFlows(l, me, peer, d);
    RowKept(OutRow(me), OutRow(me'), me.host.taken, me'.host.taken, d, complete);
    RowKept(InRow(me), InRow(me'), Flatten(me.heard), Flatten(me'.heard), d, complete);
  }

  lemma DoHears(l: Limits, me: Node, peer: Node, d: Deed)
    requires NodeGood(me) && NodeGood(peer) && Hears(me, peer) && Hears(peer, me)
    ensures Hears(Do(l, me, peer, d), peer) && Hears(peer, Do(l, me, peer, d))
  {
    if d.RequestArrives? && me.receiving == [] && d.k < |peer.sent| {
      ArriveOpens(me, peer, d.k);
      SipOrder.PickedSnoc(peer.chunks, me.arrived, d.k);
    }
  }

  lemma IdleKept(complete: bool)
    ensures Kept(IDLE_NODE, complete) && Hears(IDLE_NODE, IDLE_NODE)
  {
    FourEmpty();
  }

  lemma FourEmpty()
    ensures Flat(OutRow(IDLE_NODE)) == [] && Flat(InRow(IDLE_NODE)) == []
  {
    FourCells(OutRow(IDLE_NODE));
    FourCells(InRow(IDLE_NODE));
  }

  lemma NextKept(l: Limits, p: Pair, h: Happening, side: Side, complete: bool)
    requires Fine(p) && Kept(p.Of(side), complete) && (complete ==> CompleteDeed(h.deed))
    ensures Kept(Next(l, p, h).Of(side), complete)
  {
    if h.side == side {
      NodeKept(l, p.Of(side), p.Of(Other(side)), h.deed, complete);
    }
  }

  lemma NextHears(l: Limits, p: Pair, h: Happening)
    requires Fine(p) && Hears(p.client, p.server) && Hears(p.server, p.client)
    ensures Hears(Next(l, p, h).client, Next(l, p, h).server) && Hears(Next(l, p, h).server, Next(l, p, h).client)
  {
    DoHears(l, p.Of(h.side), p.Of(Other(h.side)), h.deed);
  }

  /** For every schedule, every network and all results of calls: in either direction nothing is
      invented or reordered within a host, and with complete writes a host loses nothing. */
  lemma {:induction false} SipAccounted(l: Limits, run: seq<Happening>, side: Side, complete: bool)
    requires complete ==> CompleteRun(run)
    ensures Kept(Play(l, BOTH_IDLE, run).Of(side), complete)
  {
    if run == [] {
      IdleKept(complete);
    } else {
      var before := run[..|run| - 1];
      SipAccounted(l, before, side, complete);
      NextKept(l, Play(l, BOTH_IDLE, before), run[|run| - 1], side, complete);
    }
  }

  /** What a host has received are chunks that the other one has sent. */
  lemma {:induction false} SipHears(l: Limits, run: seq<Happening>)
    ensures var p := Play(l, BOTH_IDLE, run);
            Hears(p.client, p.server) && Hears(p.server, p.client)
  {
    if run == [] {
      IdleKept(false);
    } else {
      SipHears(l, run[..|run| - 1]);
      NextHears(l, Play(l, BOTH_IDLE, run[..|run| - 1]), run[|run| - 1]);
    }
  }

  // ---- halting ----

  /** The callback sits in its write to pipe_from_plugin. */
  predicate CallbackBlocked(l: Limits, n: Node) {
    n.receiving != [] && |n.host.pipeFrom| + |n.receiving| > l.pipe
  }

  /** None of the three threads moves, unless a frame or a request arrives. */
  predicate NodeStuck(l: Limits, n: Node) {
    && MainStuck(l, n.host)
    && n.sending == [] && n.host.pipeTo == []
    && (n.receiving == [] || CallbackBlocked(l, n))
  }

  /** A call of a thread that succeeds in full, once it is not blocked. */
  predicate FullDeed(d: Deed) {
    match d
    case MainLoop(action) =>
      action.MainSelects? || ((action.MainReads? || action.MainWrites?) && action.outcome >= BLOCK_SIZE)
    case SenderReads(outcome) => outcome >= BLOCK_SIZE
    case SenderSends => true
    case RequestArrives(k) => false
    case CallbackWrites(outcome) => outcome >= BLOCK_SIZE
  }

  lemma MainRests(l: Limits, h: Host)
    requires WellFormed(h)
    ensures MainStuck(l, h) <==> forall action :: FullDeed(MainLoop(action)) ==> MainAct(l, h, action) == h
  {
    if forall action :: FullDeed(MainLoop(action)) ==> MainAct(l, h, action) == h {
      assert FullDeed(MainLoop(MainSelects)) && MainAct(l, h, MainSelects) == h;
      assert FullDeed(MainLoop(MainReads(BLOCK_SIZE))) && MainAct(l, h, MainReads(BLOCK_SIZE)) == h;
      assert FullDeed(MainLoop(MainWrites(BLOCK_SIZE))) && MainAct(l, h, MainWrites(BLOCK_SIZE)) == h;
    }
  }

  lemma SenderRests(me: Node, outcome: int)
    requires outcome >= BLOCK_SIZE
    ensures me.sending == [] && me.host.pipeTo == [] <==> Send(me) == me && ReadToSend(me, outcome) == me
  {
  }

  lemma CallbackRests(l: Limits, me: Node, outcome: int)
    requires outcome >= BLOCK_SIZE && |me.receiving| <= BLOCK_SIZE - 1
    ensures me.receiving == [] || CallbackBlocked(l, me) <==> WriteReceived(l, me, outcome) == me
  {
    assert me.host.pipeFrom + [] == me.host.pipeFrom;
  }

  lemma NothingMoves(l: Limits, me: Node, peer: Node)
    requires Sound(peer) && forall d :: FullDeed(d) ==> Do(l, me, peer, d) == me
    ensures forall action :: FullDeed(MainLoop(action)) ==> MainAct(l, me.host, action) == me.host
    ensures Send(me) == me && ReadToSend(me, BLOCK_SIZE) == me && WriteReceived(l, me, BLOCK_SIZE) == me
  {
    forall action | FullDeed(MainLoop(action)) ensures MainAct(l, me.host, action) == me.host {
      assert Do(l, me, peer, MainLoop(action)) == me;
    }
    assert FullDeed(SenderSends) && Do(l, me, peer, SenderSends) == me;
    assert FullDeed(SenderReads(BLOCK_SIZE)) && Do(l, me, peer, SenderReads(BLOCK_SIZE)) == me;
    assert FullDeed(CallbackWrites(BLOCK_SIZE)) && Do(l, me, peer, CallbackWrites(BLOCK_SIZE)) == me;
  }

  lemma StuckRests(l: Limits, me: Node, peer: Node, d: Deed)
    requires NodeGood(me) && Sound(peer) && NodeStuck(l, me) && FullDeed(d)
    ensures Do(l, me, peer, d) == me
  {
    match d
    case MainLoop(action) => MainRests(l, me.host);
    case SenderReads(outcome) => SenderRests(me, outcome);
    case SenderSends => SenderRests(me, BLOCK_SIZE);
    case RequestArrives(k) =>
    case CallbackWrites(outcome) => CallbackRests(l, me, outcome);
  }

  lemma RestsStuck(l: Limits, me: Node, peer: Node)
    requires NodeGood(me) && Sound(peer) && forall d :: FullDeed(d) ==> Do(l, me, peer, d) == me
    ensures NodeStuck(l, me)
  {
    NothingMoves(l, me, peer);
    MainRests(l, me.host);
    SenderRests(me, BLOCK_SIZE);
    CallbackRests(l, me, BLOCK_SIZE);
  }

  /** The predicate says exactly that no full call of the host does anything. */
  lemma NodeStuckExactly(l: Limits, me: Node, peer: Node)
    requires NodeGood(me) && Sound(peer)
    ensures NodeStuck(l, me) <==> forall d :: FullDeed(d) ==> Do(l, me, peer, d) == me
  {
    if NodeStuck(l, me) {
      forall d | FullDeed(d) ensures Do(l, me, peer, d) == me { StuckRests(l, me, peer, d); }
    }
    if forall d :: FullDeed(d) ==> Do(l, me, peer, d) == me {
      RestsStuck(l, me, peer);
    }
  }

  /** Nothing left to forward in either direction. */
  predicate Emptied(n: Node) {
    && n.host.tapIn == [] && n.host.main.Selecting?
    && n.host.pipeTo == [] && n.host.pipeFrom == [] && n.sending == [] && n.receiving == []
  }

  /** A SIP host comes to a halt exactly when it has emptied both its pipes: no deadlock. */
  lemma SipHaltIsEmpty(l: Limits, n: Node)
    requires NodeGood(n) && l.pipe >= BLOCK_SIZE - 1
    ensures NodeStuck(l, n) <==> Emptied(n)
  {
  }

  // ---- every step brings the halt closer ----

  /** Bytes in the host, each counted with the cells it has left, and whether the main loop waits. */
  function Effort(n: Node): nat {
    2 * (Hops(OutRow(n)) + Hops(InRow(n)) + 4 * |Cut(n.host.tapIn)|) + Waiting(n.host.main)
  }

  /** A deed that moves its thread on: not blocked and, if a read of the main loop, not failed. */
  ghost predicate ProductiveDeed(l: Limits, me: Node, peer: Node, d: Deed)
    requires Sound(peer)
  {
    && !d.RequestArrives? && (d.MainLoop? ==> !d.action.FrameArrives?)
    && Do(l, me, peer, d) != me
    && (d.MainLoop? && d.action.MainReads? ==> d.action.outcome > 0)
  }

  lemma FlowHops(row: Row, row': Row, entered: seq<byte>, entered': seq<byte>, d: Deed)
    requires |row| == 4 && Flows(row, row', entered, entered', d)
    ensures || row' == row || Hops(row') < Hops(row)
            || (|entered'| > |entered| && Hops(row') == Hops(row) + 3 * (|entered'| - |entered|))
  {
    var lost: nat :| FlowStep(row, row', entered, entered', lost) && (CompleteDeed(d) ==> lost == 0);
    if i: nat, n: nat, keep: nat :| IsShift(row, row', i, n, keep) {
      ShiftHops(row, i, n, keep);
    } else if c :| IsEntry(row, row', c) && entered' == entered + c {
      EntryHops(row, c);
    }
  }

  lemma CutFalls(l: Limits, me: Node, peer: Node, d: Deed)
    requires Sound(peer) && (d.MainLoop? ==> !d.action.FrameArrives?)
    ensures var h, h' := me.host, Do(l, me, peer, d).host;
            |h'.taken| + |Cut(h'.tapIn)| <= |h.taken| + |Cut(h.tapIn)|
  {
    if d.MainLoop? && d.action.MainReads? && me.host.main == Reading(Outbound) && me.host.tapIn != [] {
      CutHead(me.host.tapIn, Moved(d.action.outcome, Min(BLOCK_SIZE - 1, |me.host.tapIn[0]|)));
    }
  }

  /** What no row shows is the main loop's way from select to a read. */
  lemma SelectShows(l: Limits, me: Node, peer: Node, d: Deed)
    requires NodeGood(me) && Sound(peer) && ProductiveDeed(l, me, peer, d)
    requires OutRow(Do(l, me, peer, d)) == OutRow(me) && InRow(Do(l, me, peer, d)) == InRow(me)
    ensures Waiting(Do(l, me, peer, d).host.main) < Waiting(me.host.main)
    ensures Do(l, me, peer, d).host.tapIn == me.host.tapIn
  {
    assert OutRow(Do(l, me, peer, d))[3] == OutRow(me)[3] && InRow(Do(l, me, peer, d))[1] == InRow(me)[1];
    assert OutRow(Do(l, me, peer, d))[1] == OutRow(me)[1] && InRow(Do(l, me, peer, d))[3] == InRow(me)[3];
  }

  lemma SipProgress(l: Limits, me: Node, peer: Node, d: Deed)
    requires NodeGood(me) && NodeGood(peer) && ProductiveDeed(l, me, peer, d)
    ensures Effort(Do(l, me, peer, d)) < Effort(me)
  {
    var me' := Do(l, me, peer, d);
    DoFlows(l, me, peer, d);
    FlowHops(OutRow(me), OutRow(me'), me.host.taken, me'.host.taken, d);
    FlowHops(InRow(me), InRow(me'), Flatten(me.heard), Flatten(me'.heard), d);
    CutFalls(l, me, peer, d);
    if OutRow(me') == OutRow(me) && InRow(me') == InRow(me) {
      SelectShows(l, me, peer, d);
    }
  }

  ghost predicate AllProductiveDeeds(l: Limits, p: Pair, run: seq<Happening>)
    requires Fine(p)
  {
    forall i :: 0 <= i < |run| ==>
      var q := Play(l, p, run[..i]);
      ProductiveDeed(l, q.Of(run[i].side), q.Of(Other(run[i].side)), run[i].deed)
  }

  /** Until the next frame or request arrives, only so many deeds are left, and then both hosts have
      come to a halt. */
  lemma {:induction false} SipRunsAreShort(l: Limits, p: Pair, run: seq<Happening>)
    requires Fine(p) && AllProductiveDeeds(l, p, run)
    ensures var q := Play(l, p, run);
            |run| + Effort(q.client) + Effort(q.server) <= Effort(p.client) + Effort(p.server)
  {
    if run != [] {
      var before, h := run[..|run| - 1], run[|run| - 1];
      forall i | 0 <= i < |before| ensures before[..i] == run[..i] {}
      SipRunsAreShort(l, p, before);
      var q := Play(l, p, before);
      SipProgress(l, q.Of(h.side), q.Of(Other(h.side)), h.deed);
    }
  }

  // ---- what a halt has delivered ----

  function FramesOf(d: Deed): seq<Frame> {
    if d.MainLoop? then NewFrames(d.action) else []
  }

  function FramesAt(run: seq<Happening>, side: Side): seq<Frame> {
    if run == [] then []
    else
      var h := run[|run| - 1];
      FramesAt(run[..|run| - 1], side) + (if h.side == side then FramesOf(h.deed) else [])
  }

  ghost predicate WholeDeviceReads(l: Limits, run: seq<Happening>) {
    forall i :: 0 <= i < |run| && run[i].deed.MainLoop? ==>
      WholeRead(Play(l, BOTH_IDLE, run[..i]).Of(run[i].side).host, run[i].deed.action)
  }

  lemma DeviceReadsFront(l: Limits, run: seq<Happening>)
    requires run != [] && WholeDeviceReads(l, run)
    ensures var before, h := run[..|run| - 1], run[|run| - 1];
            && WholeDeviceReads(l, before)
            && (h.deed.MainLoop? ==> WholeRead(Play(l, BOTH_IDLE, before).Of(h.side).host, h.deed.action))
  {
    var before := run[..|run| - 1];
    forall i | 0 <= i < |before| ensures before[..i] == run[..i] {}
  }

  lemma MainTakes(l: Limits, h: Host, action: Action)
    requires WholeRead(h, action)
    ensures var h' := MainAct(l, h, action);
            h'.taken + Cut(h'.tapIn) == h.taken + Cut(h.tapIn + NewFrames(action))
  {
    NoNewFrames(h.tapIn);
    if action.MainReads? {
      ReadTakes(h, action.outcome);
    }
  }

  lemma DoTakes(l: Limits, me: Node, peer: Node, d: Deed)
    requires Sound(peer) && (d.MainLoop? ==> WholeRead(me.host, d.action))
    ensures var h, h' := me.host, Do(l, me, peer, d).host;
            h'.taken + Cut(h'.tapIn) == h.taken + Cut(h.tapIn + FramesOf(d))
  {
    NoNewFrames(me.host.tapIn);
    if d.MainLoop? {
      MainTakes(l, me.host, d.action);
    } else if d.RequestArrives? && me.receiving == [] && d.k < |peer.sent| {
      ArriveOpens(me, peer, d.k);
    }
  }

  lemma {:induction false} SipTakes(l: Limits, run: seq<Happening>, side: Side)
    requires WholeDeviceReads(l, run)
    ensures var h := Play(l, BOTH_IDLE, run).Of(side).host;
            h.taken + Cut(h.tapIn) == Cut(FramesAt(run, side))
  {
    if run != [] {
      var before, h := run[..|run| - 1], run[|run| - 1];
      DeviceReadsFront(l, run);
      SipTakes(l, before, side);
      var me := Play(l, BOTH_IDLE, before).Of(side);
      NoNewFrames(FramesAt(before, side));
      NoNewFrames(me.host.tapIn);
      if h.side == side {
        DoTakes(l, me, Play(l, BOTH_IDLE, before).Of(Other(side)), h.deed);
        if h.deed.MainLoop? && h.deed.action.FrameArrives? {
          ExtendCut(me.host.taken, me.host.tapIn, FramesAt(before, side), h.deed.action.frame);
        }
      }
    }
  }

  lemma EmptiedRows(n: Node)
    requires Emptied(n)
    ensures Flat(OutRow(n)) == Flatten(n.chunks) && Flat(InRow(n)) == n.host.delivered
  {
    FourCells(OutRow(n));
    FourCells(InRow(n));
  }

  lemma EmptiedDelivers(me: Node, peer: Node, frames: seq<Frame>)
    requires Emptied(me) && Emptied(peer) && Hears(peer, me)
    requires Flat(OutRow(me)) == me.host.taken && Flat(InRow(peer)) == Flatten(peer.heard)
    requires me.host.taken + Cut(me.host.tapIn) == Cut(frames)
    ensures Flatten(me.chunks) == Cut(frames)
    ensures peer.host.delivered == Flatten(SipOrder.Picked(me.chunks, peer.arrived))
  {
    EmptiedRows(me);
    EmptiedRows(peer);
    assert me.host.taken + [] == me.host.taken;
  }

  /** Whenever both hosts have come to a halt, one has sent all frames of its device, as reads cut
      them, and the other has delivered exactly the chunks that arrived, in the order in which they
      did: all the frames, if the network brought each request once and in order. */
  lemma SipHaltDelivers(l: Limits, run: seq<Happening>, from: Side)
    requires l.pipe >= BLOCK_SIZE - 1 && CompleteRun(run) && WholeDeviceReads(l, run)
    requires NodeStuck(l, Play(l, BOTH_IDLE, run).client) && NodeStuck(l, Play(l, BOTH_IDLE, run).server)
    ensures var me, peer := Play(l, BOTH_IDLE, run).Of(from), Play(l, BOTH_IDLE, run).Of(Other(from));
            && Flatten(me.chunks) == Cut(FramesAt(run, from))
            && SipOrder.InRange(me.chunks, peer.arrived)
            && peer.host.delivered == Flatten(SipOrder.Picked(me.chunks, peer.arrived))
            && (SipTunnel.InOrder(peer.arrived) && |peer.arrived| == |me.chunks| ==>
                  peer.host.delivered == Cut(FramesAt(run, from)))
  {
    var me, peer := Play(l, BOTH_IDLE, run).Of(from), Play(l, BOTH_IDLE, run).Of(Other(from));
    SipAccounted(l, run, from, true);
    SipAccounted(l, run, Other(from), true);
    SipHears(l, run);
    SipHaltIsEmpty(l, me);
    SipHaltIsEmpty(l, peer);
    SipTakes(l, run, from);
    EmptiedDelivers(me, peer, FramesAt(run, from));
    if SipTunnel.InOrder(peer.arrived) && |peer.arrived| == |me.chunks| {
      AllPicked(me.chunks, peer.arrived);
    }
  }

  lemma AllPicked(chunks: seq<seq<byte>>, ks: seq<nat>)
    requires SipOrder.InRange(chunks, ks) && SipTunnel.InOrder(ks) && |ks| == |chunks|
    ensures SipOrder.Picked(chunks, ks) == chunks
  {
  }
}
