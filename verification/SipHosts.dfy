/**
 Two hosts that run main.c with the SIP plugin, from device to device.  The plugin has a thread
 for each direction: sip_loop_tun_events empties one pipe and sends, on_rx_request fills the other
 and is called for one request after the other.  The main loop is the one of module Tunnel.
 Unlike the TCP plugin with its single thread, this one never deadlocks with the main loop.
 */
module SipHosts {
  import opened Bits
  import opened Io
  import opened Cells
  import opened Tunnel
  import opened TunnelRuns
  import opened SipPlugin
  import SipOrder
  import SipTunnel

  /** One host.  Its device, pipes and main loop, whose plugin is not the one of TCP and stays idle;
      the chunk that sip_loop_tun_events has read and not sent; all chunks and requests it has sent;
      the chunk that on_rx_request has decoded and not written; which requests of the peer have
      arrived, and the chunks that were in them. */
  datatype Node = Node(
    host: Host, sending: seq<byte>, chunks: seq<seq<byte>>, sent: seq<Request>,
    receiving: seq<byte>, arrived: seq<nat>, heard: seq<seq<byte>>)

  const IDLE_NODE := Node(IDLE, [], [], [], [], [], [])

  /** A step of the main loop (or a frame for its device) or of one of the plugin's threads. */
  datatype Deed =
    | MainLoop(action: Action)
    | SenderReads(outcome: int)
    | SenderSends
    | RequestArrives(k: nat)
    | CallbackWrites(outcome: int)

  ghost predicate Sound(n: Node) {
    Enclose(n.sent, n.chunks)
  }

  function MainAct(l: Limits, h: Host, action: Action): Host {
    match action
    case FrameArrives(frame) => h.(tapIn := h.tapIn + [frame])
    case MainSelects => MainSelect(h)
    case MainReads(outcome) => MainRead(h, outcome)
    case MainWrites(outcome) => MainWrite(l, h, outcome)
    case _ => h
  }

  // ---- sip_loop_tun_events ----

  function ReadToSend(me: Node, outcome: int): Node {
    if me.sending != [] then me
    else
      var n := Moved(outcome, Min(BLOCK_SIZE - 1, |me.host.pipeTo|));
      me.(host := me.host.(pipeTo := me.host.pipeTo[n..]), sending := me.host.pipeTo[..n])
  }

  /** Sending does not wait for the peer. */
  ghost function Send(me: Node): Node {
    if me.sending == [] then me
    else me.(sending := [], chunks := me.chunks + [me.sending], sent := me.sent + [Envelope(me.sending)])
  }

  // ---- on_rx_request ----

  /** Any request that the peer has ever sent may arrive, once the callback is done with the last. */
  ghost function Arrive(me: Node, peer: Node, k: nat): Node
    requires Sound(peer)
  {
    if me.receiving != [] || k >= |peer.sent| then me
    else
      PathIsExact(peer.chunks[k]);
      var c := Opened(peer.sent[k]);
      me.(receiving := c, arrived := me.arrived + [k], heard := me.heard + [c])
  }

  function WriteReceived(l: Limits, me: Node, outcome: int): Node {
    var n := Moved(outcome, |me.receiving|);
    if |me.host.pipeFrom| + n > l.pipe then me
    else me.(host := me.host.(pipeFrom := me.host.pipeFrom + me.receiving[..n]), receiving := [])
  }

  ghost function Do(l: Limits, me: Node, peer: Node, d: Deed): Node
    requires Sound(peer)
  {
    match d
    case MainLoop(action) => me.(host := MainAct(l, me.host, action))
    case SenderReads(outcome) => ReadToSend(me, outcome)
    case SenderSends => Send(me)
    case RequestArrives(k) => Arrive(me, peer, k)
    case CallbackWrites(outcome) => WriteReceived(l, me, outcome)
  }

  /** Read and send in one go are a turn of the sender in the model of one direction. */
  lemma SenderTurn(me: Node, outcome: int)
    requires Sound(me) && me.sending == []
    ensures var me' := Send(ReadToSend(me, outcome));
            SipTunnel.Send(SipTunnel.State(me.host.pipeTo, me.chunks, me.sent, [], [], []), outcome)
            == SipTunnel.State(me'.host.pipeTo, me'.chunks, me'.sent, [], [], [])
  {
    assert me.host.pipeTo[0..] == me.host.pipeTo;
  }

  /** An arrival and the write that follows, if the pipe has room, are an arrival there. */
  lemma ReceiverTurn(l: Limits, me: Node, peer: Node, k: nat, outcome: int)
    requires Sound(peer) && me.receiving == [] && k < |peer.sent|
    requires |me.host.pipeFrom| + |peer.chunks[k]| <= l.pipe
    ensures var s := SipTunnel.State([], peer.chunks, peer.sent, me.arrived, [], []);
            var me', s' := WriteReceived(l, Arrive(me, peer, k), outcome), SipTunnel.Receive(s, k, outcome);
            && me'.receiving == [] && me'.arrived == s'.arrived
            && |s'.written| == 1 && me'.host.pipeFrom == me.host.pipeFrom + s'.written[0]
  {
    ArriveOpens(me, peer, k);
    var w := SipTunnel.WrittenByArrival(SipTunnel.State([], peer.chunks, peer.sent, me.arrived, [], []), k, outcome);
  }

  // ---- what every step keeps ----

  ghost predicate NodeGood(n: Node) {
    && Sound(n) && WellFormed(n.host) && n.host.plugin.Selecting?
    && |n.sending| <= BLOCK_SIZE - 1 && |n.receiving| <= BLOCK_SIZE - 1
  }

  /** What arrived is what the peer sent. */
  ghost predicate Hears(me: Node, peer: Node) {
    SipOrder.InRange(peer.chunks, me.arrived) && me.heard == SipOrder.Picked(peer.chunks, me.arrived)
  }

  lemma ArriveOpens(me: Node, peer: Node, k: nat)
    requires Sound(peer) && me.receiving == [] && k < |peer.sent|
    ensures var c := peer.chunks[k];
            Arrive(me, peer, k) == me.(receiving := c, arrived := me.arrived + [k], heard := me.heard + [c])
  {
    PathIsExact(peer.chunks[k]);
  }

  lemma MainActGood(l: Limits, h: Host, action: Action)
    requires WellFormed(h)
    ensures WellFormed(MainAct(l, h, action))
  {
  }

  lemma SendGood(me: Node)
    requires Sound(me) && |me.sending| <= BLOCK_SIZE - 1
    ensures Sound(Send(me))
  {
  }

  /** The plugin's threads leave the main loop well formed. */
  lemma PluginGood(l: Limits, me: Node, outcome: int)
    requires WellFormed(me.host) && me.host.plugin.Selecting?
    ensures WellFormed(WriteReceived(l, me, outcome).host) && WriteReceived(l, me, outcome).host.plugin.Selecting?
    ensures WellFormed(ReadToSend(me, outcome).host) && ReadToSend(me, outcome).host.plugin.Selecting?
    ensures |me.sending| <= BLOCK_SIZE - 1 ==> |ReadToSend(me, outcome).sending| <= BLOCK_SIZE - 1
  {
  }

  lemma DoGood(l: Limits, me: Node, peer: Node, d: Deed)
    requires NodeGood(me) && NodeGood(peer)
    ensures NodeGood(Do(l, me, peer, d))
  {
    match d
    case MainLoop(action) => MainActGood(l, me.host, action);
    case SenderReads(outcome) => PluginGood(l, me, outcome);
    case SenderSends => SendGood(me);
    case RequestArrives(k) =>
      if me.receiving == [] && k < |peer.sent| {
        ArriveOpens(me, peer, k);
      }
    case CallbackWrites(outcome) => PluginGood(l, me, outcome);
  }

  /** From the device to the requests. */
  function OutRow(n: Node): (row: Row)
    ensures |row| == 4
  {
    [Flatten(n.chunks), n.sending, n.host.pipeTo, Held(n.host.main, Outbound)]
  }

  /** From the requests to the device. */
  function InRow(n: Node): (row: Row)
    ensures |row| == 4
  {
    [n.host.delivered, Held(n.host.main, Inbound), n.host.pipeFrom, n.receiving]
  }

  /** Not a write that is cut short or fails. */
  predicate CompleteDeed(d: Deed) {
    match d
    case MainLoop(action) => Complete(action)
    case CallbackWrites(outcome) => outcome >= BLOCK_SIZE - 1
    case _ => true
  }

  /** A step of a row that loses nothing if the deed is complete. */
  ghost predicate Flows(row: Row, row': Row, entered: seq<byte>, entered': seq<byte>, d: Deed) {
    exists lost: nat :: FlowStep(row, row', entered, entered', lost) && (CompleteDeed(d) ==> lost == 0)
  }

  lemma Stays(row: Row, entered: seq<byte>, d: Deed)
    ensures Flows(row, row, entered, entered, d)
  {
    assert FlowStep(row, row, entered, entered, 0);
  }

  lemma Shifts(row: Row, row': Row, entered: seq<byte>, i: nat, n: nat, keep: nat, d: Deed)
    requires IsShift(row, row', i, n, keep) && (CompleteDeed(d) ==> keep == n)
    ensures Flows(row, row', entered, entered, d)
  {
    assert FlowStep(row, row', entered, entered, n - keep);
  }

  lemma Enters(row: Row, row': Row, entered: seq<byte>, c: seq<byte>, d: Deed)
    requires IsEntry(row, row', c)
    ensures Flows(row, row', entered, entered + c, d)
  {
    assert FlowStep(row, row', entered, entered + c, 0);
  }

  ghost predicate BothFlow(me: Node, me': Node, d: Deed) {
    && Flows(OutRow(me), OutRow(me'), me.host.taken, me'.host.taken, d)
    && Flows(InRow(me), InRow(me'), Flatten(me.heard), Flatten(me'.heard), d)
  }

  lemma MainReadsFlow(me: Node, outcome: int)
    requires WellFormed(me.host)
    ensures BothFlow(me, me.(host := MainRead(me.host, outcome)), MainLoop(MainReads(outcome)))
  {
    var me', d := me.(host := MainRead(me.host, outcome)), MainLoop(MainReads(outcome));
    Stays(OutRow(me), me.host.taken, d);
    Stays(InRow(me), Flatten(me.heard), d);
    if me'.host.main.Writing? && !me.host.main.Writing? {
      var c := me'.host.main.chunk;
      if me.host.main.branch.Outbound? {
        assert OutRow(me') == OutRow(me)[3 := c];
        Enters(OutRow(me), OutRow(me'), me.host.taken, c, d);
      } else {
        FillShift(InRow(me), InRow(me'), 1, |c|);
        Shifts(InRow(me), InRow(me'), Flatten(me.heard), 1, |c|, |c|, d);
      }
    }
  }

  lemma MainWritesFlow(l: Limits, me: Node, outcome: int)
    requires WellFormed(me.host)
    ensures BothFlow(me, me.(host := MainWrite(l, me.host, outcome)), MainLoop(MainWrites(outcome)))
  {
    var me', d := me.(host := MainWrite(l, me.host, outcome)), MainLoop(MainWrites(outcome));
    Stays(OutRow(me), me.host.taken, d);
    Stays(InRow(me), Flatten(me.heard), d);
    if me'.host != me.host {
      var n := |me.host.main.chunk|;
      var keep := Moved(outcome, n);
      if me.host.main.branch.Outbound? {
        WholeShift(OutRow(me), OutRow(me'), 2, keep);
        Shifts(OutRow(me), OutRow(me'), me.host.taken, 2, n, keep, d);
      } else {
        WholeShift(InRow(me), InRow(me'), 0, keep);
        Shifts(InRow(me), InRow(me'), Flatten(me.heard), 0, n, keep, d);
      }
    }
  }

  lemma SenderReadsFlow(me: Node, outcome: int)
    ensures BothFlow(me, ReadToSend(me, outcome), SenderReads(outcome))
  {
    var me', d := ReadToSend(me, outcome), SenderReads(outcome);
    Stays(OutRow(me), me.host.taken, d);
    Stays(InRow(me), Flatten(me.heard), d);
    var n := |me'.sending|;
    if me.sending == [] {
      if n > 0 {
        FillShift(OutRow(me), OutRow(me'), 1, n);
        Shifts(OutRow(me), OutRow(me'), me.host.taken, 1, n, n, d);
      } else {
        assert me.host.pipeTo[0..] == me.host.pipeTo;
      }
    }
  }

  lemma SenderSendsFlow(me: Node)
    ensures BothFlow(me, Send(me), SenderSends)
  {
    var me' := Send(me);
    Stays(OutRow(me), me.host.taken, SenderSends);
    Stays(InRow(me), Flatten(me.heard), SenderSends);
    if me.sending != [] {
      var n := |me.sending|;
      FlattenSnoc(me.chunks, me.sending);
      assert me.sending[..n] == me.sending;
      WholeShift(OutRow(me), OutRow(me'), 0, n);
      Shifts(OutRow(me), OutRow(me'), me.host.taken, 0, n, n, SenderSends);
    }
  }

  lemma ReceivedFlows(me: Node, c: seq<byte>, k: nat)
    requires me.receiving == []
    ensures BothFlow(me, me.(receiving := c, arrived := me.arrived + [k], heard := me.heard + [c]), RequestArrives(k))
  {
    var me', d := me.(receiving := c, arrived := me.arrived + [k], heard := me.heard + [c]), RequestArrives(k);
    assert OutRow(me') == OutRow(me) && InRow(me') == InRow(me)[3 := c];
    Stays(OutRow(me), me.host.taken, d);
    FlattenSnoc(me.heard, c);
    Enters(InRow(me), InRow(me'), Flatten(me.heard), c, d);
  }

  lemma ArrivesFlow(me: Node, peer: Node, k: nat)
    requires Sound(peer)
    ensures BothFlow(me, Arrive(me, peer, k), RequestArrives(k))
  {
    if me.receiving == [] && k < |peer.sent| {
      ArriveOpens(me, peer, k);
      ReceivedFlows(me, peer.chunks[k], k);
    } else {
      Stays(OutRow(me), me.host.taken, RequestArrives(k));
      Stays(InRow(me), Flatten(me.heard), RequestArrives(k));
    }
  }

  lemma CallbackWritesFlow(l: Limits, me: Node, outcome: int)
    requires |me.receiving| <= BLOCK_SIZE - 1
    ensures BothFlow(me, WriteReceived(l, me, outcome), CallbackWrites(outcome))
  {
    var me', d := WriteReceived(l, me, outcome), CallbackWrites(outcome);
    Stays(OutRow(me), me.host.taken, d);
    Stays(InRow(me), Flatten(me.heard), d);
    var n := |me.receiving|;
    var keep := Moved(outcome, n);
    if |me.host.pipeFrom| + keep <= l.pipe {
      if n > 0 {
        WholeShift(InRow(me), InRow(me'), 2, keep);
        Shifts(InRow(me), InRow(me'), Flatten(me.heard), 2, n, keep, d);
      } else {
        assert me.host.pipeFrom + me.receiving[..0] == me.host.pipeFrom;
      }
    }
  }

  lemma DoFlows(l: Limits, me: Node, peer: Node, d: Deed)
    requires NodeGood(me) && NodeGood(peer)
    ensures BothFlow(me, Do(l, me, peer, d), d)
  {
    Stays(OutRow(me), me.host.taken, d);
    Stays(InRow(me), Flatten(me.heard), d);
    match d
    case MainLoop(action) =>
      match action {
        case MainReads(outcome) => MainReadsFlow(me, outcome);
        case MainWrites(outcome) => MainWritesFlow(l, me, outcome);
        case _ =>
      }
    case SenderReads(outcome) => SenderReadsFlow(me, outcome);
    case SenderSends => SenderSendsFlow(me);
    case RequestArrives(k) => ArrivesFlow(me, peer, k);
    case CallbackWrites(outcome) => CallbackWritesFlow(l, me, outcome);
  }
}
