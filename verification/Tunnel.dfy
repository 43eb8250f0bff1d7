/**
 The forwarding loops of main.c and tcp_plugin.c on two connected hosts, as a transition
 system.  Each host runs two threads: the main loop between the TAP device and the plugin's
 pipes, and the plugin loop between the pipes and the socket.  A thread moves by its system
 calls, one at a time: select, which also fixes the branch of the if / else if; read; write.
 Between the sockets the network carries bytes, as many at a time as it likes.  Any of these may
 come between any two others.
 */
module Tunnel {
  import opened Bits
  import opened Io

  /** What the kernel hands over as one packet of the TAP device; never empty. */
  type Frame = f: seq<byte> | f != [] witness [0]

  /** Away from this host's TAP device, or towards it. */
  datatype Branch = Outbound | Inbound

  /** Where a thread stands: at select, at the read of a branch, or at its write with the bytes
      that the read left in the thread's buffer. */
  datatype Stage = Selecting | Reading(branch: Branch) | Writing(branch: Branch, chunk: seq<byte>)

  /** One host.  Frames waiting at its TAP device, all bytes its reads of the device returned,
      all bytes written to the device, the two pipes, what its socket has accepted and the network
      has not carried yet, what the network has brought and the plugin has not read yet, and the
      two threads. */
  datatype Host = Host(
    tapIn: seq<Frame>, taken: seq<byte>, delivered: seq<byte>,
    pipeTo: seq<byte>, pipeFrom: seq<byte>, wire: seq<byte>, inbox: seq<byte>,
    main: Stage, plugin: Stage)

  /** How much a pipe and either end of a socket stream hold; a write that finds no room blocks. */
  datatype Limits = Limits(pipe: nat, wire: nat, inbox: nat)

  const IDLE := Host([], [], [], [], [], [], [], Selecting, Selecting)

  // ---- main.c, MainLoop ----

  /** The TAP device is asked before the pipe. */
  function MainSelect(me: Host): Host {
    if !me.main.Selecting? then me
    else if me.tapIn != [] then me.(main := Reading(Outbound))
    else if me.pipeFrom != [] then me.(main := Reading(Inbound))
    else me
  }

  /** A read of the device takes one frame and keeps at most BLOCK_SIZE - 1 bytes of it; a read
      of the pipe takes up to BLOCK_SIZE bytes.  A failed read goes back to select. */
  function MainRead(me: Host, outcome: int): Host {
    match me.main
    case Reading(Outbound) =>
      var n := if me.tapIn == [] then 0 else Moved(outcome, Min(BLOCK_SIZE - 1, |me.tapIn[0]|));
      if n == 0 then me.(main := Selecting)
      else me.(tapIn := me.tapIn[1..], taken := me.taken + me.tapIn[0][..n],
               main := Writing(Outbound, me.tapIn[0][..n]))
    case Reading(Inbound) =>
      var n := Moved(outcome, Min(BLOCK_SIZE, |me.pipeFrom|));
      if n == 0 then me.(main := Selecting)
      else me.(pipeFrom := me.pipeFrom[n..], main := Writing(Inbound, me.pipeFrom[..n]))
    case _ => me
  }

  /** Whatever the write accepts, the rest of the chunk is forgotten. */
  function MainWrite(l: Limits, me: Host, outcome: int): Host {
    match me.main
    case Writing(Outbound, chunk) =>
      var n := Moved(outcome, |chunk|);
      if |me.pipeTo| + n <= l.pipe then me.(pipeTo := me.pipeTo + chunk[..n], main := Selecting) else me
    case Writing(Inbound, chunk) =>
      me.(delivered := me.delivered + chunk[..Moved(outcome, |chunk|)], main := Selecting)
    case _ => me
  }

  // ---- tcp_plugin.c, the loop of tcp_startClient and of tcp_startServer ----

  /** The socket is asked before the pipe. */
  function PluginSelect(me: Host): Host {
    if !me.plugin.Selecting? then me
    else if me.inbox != [] then me.(plugin := Reading(Inbound))
    else if me.pipeTo != [] then me.(plugin := Reading(Outbound))
    else me
  }

  function PluginRead(me: Host, outcome: int): Host {
    match me.plugin
    case Reading(Inbound) =>
      var n := Moved(outcome, Min(BLOCK_SIZE - 1, |me.inbox|));
      if n == 0 then me.(plugin := Selecting)
      else me.(inbox := me.inbox[n..], plugin := Writing(Inbound, me.inbox[..n]))
    case Reading(Outbound) =>
      var n := Moved(outcome, Min(BLOCK_SIZE - 1, |me.pipeTo|));
      if n == 0 then me.(plugin := Selecting)
      else me.(pipeTo := me.pipeTo[n..], plugin := Writing(Outbound, me.pipeTo[..n]))
    case _ => me
  }

  function PluginWrite(l: Limits, me: Host, outcome: int): Host {
    match me.plugin
    case Writing(Inbound, chunk) =>
      var n := Moved(outcome, |chunk|);
      if |me.pipeFrom| + n <= l.pipe then me.(pipeFrom := me.pipeFrom + chunk[..n], plugin := Selecting) else me
    case Writing(Outbound, chunk) =>
      var n := Moved(outcome, |chunk|);
      if |me.wire| + n <= l.wire then me.(wire := me.wire + chunk[..n], plugin := Selecting) else me
    case _ => me
  }

  // ---- the network ----

  function RoomLeft(limit: nat, used: nat): nat {
    if used <= limit then limit - used else 0
  }

  /** How many bytes the network carries: never more than the receiving socket has room for. */
  function Carried(l: Limits, me: Host, peer: Host, outcome: int): (n: nat)
    ensures n <= |me.wire|
  {
    Moved(outcome, Min(|me.wire|, RoomLeft(l.inbox, |peer.inbox|)))
  }

  function Carry(l: Limits, me: Host, peer: Host, outcome: int): (Host, Host) {
    var n := Carried(l, me, peer, outcome);
    (me.(wire := me.wire[n..]), peer.(inbox := peer.inbox + me.wire[..n]))
  }

  lemma CarryNothing(l: Limits, me: Host, peer: Host, outcome: int)
    ensures Carried(l, me, peer, outcome) == 0 <==> Carry(l, me, peer, outcome) == (me, peer)
  {
    var n := Carried(l, me, peer, outcome);
    assert |me.wire[n..]| == |me.wire| - n;
    assert n == 0 ==> me.wire[n..] == me.wire && peer.inbox + me.wire[..n] == peer.inbox;
  }

  // ---- runs of two hosts ----

  datatype Action =
    | FrameArrives(frame: Frame)
    | MainSelects
    | MainReads(outcome: int)
    | MainWrites(outcome: int)
    | PluginSelects
    | PluginReads(outcome: int)
    | PluginWrites(outcome: int)
    | NetworkCarries(outcome: int)

  /** A step of one host, or of the network that carries what this host has sent. */
  function Act(l: Limits, me: Host, peer: Host, action: Action): (Host, Host) {
    match action
    case FrameArrives(frame) => (me.(tapIn := me.tapIn + [frame]), peer)
    case MainSelects => (MainSelect(me), peer)
    case MainReads(outcome) => (MainRead(me, outcome), peer)
    case MainWrites(outcome) => (MainWrite(l, me, outcome), peer)
    case PluginSelects => (PluginSelect(me), peer)
    case PluginReads(outcome) => (PluginRead(me, outcome), peer)
    case PluginWrites(outcome) => (PluginWrite(l, me, outcome), peer)
    case NetworkCarries(outcome) => Carry(l, me, peer, outcome)
  }

  datatype Side = Client | Server
  datatype Event = Event(side: Side, action: Action)
  datatype State = State(client: Host, server: Host) {
    function Of(side: Side): Host {
      if side.Client? then client else server
    }
  }

  function Other(side: Side): Side {
    if side.Client? then Server else Client
  }

  function Step(l: Limits, s: State, e: Event): State {
    var (me, peer) := Act(l, s.Of(e.side), s.Of(Other(e.side)), e.action);
    if e.side.Client? then State(me, peer) else State(peer, me)
  }

  /** A thread that cannot move (nothing to select, no room to write) leaves the state alone, so
      every list of events is a schedule. */
  function Run(l: Limits, s: State, run: seq<Event>): State {
    if run == [] then s else Step(l, Run(l, s, run[..|run| - 1]), run[|run| - 1])
  }

  const START := State(IDLE, IDLE)

  // ---- what a thread holds between its read and its write ----

  function Held(stage: Stage, branch: Branch): seq<byte> {
    if stage.Writing? && stage.branch == branch then stage.chunk else []
  }

  /** The way from one host's TAP device to the other's, the far end first. */
  function Path(me: Host, peer: Host): (cells: seq<seq<byte>>)
    ensures |cells| == 9
  {
    [peer.delivered, Held(peer.main, Inbound), peer.pipeFrom, Held(peer.plugin, Inbound), peer.inbox,
     me.wire, Held(me.plugin, Outbound), me.pipeTo, Held(me.main, Outbound)]
  }

  /** A thread at its read has something to read, and what it holds at its write is one chunk. */
  predicate WellFormed(me: Host) {
    && (me.main == Reading(Outbound) ==> me.tapIn != [])
    && (me.main == Reading(Inbound) ==> me.pipeFrom != [])
    && (me.plugin == Reading(Inbound) ==> me.inbox != [])
    && (me.plugin == Reading(Outbound) ==> me.pipeTo != [])
    && (me.main.Writing? ==> 0 < |me.main.chunk| <= if me.main.branch.Outbound? then BLOCK_SIZE - 1 else BLOCK_SIZE)
    && (me.plugin.Writing? ==> 0 < |me.plugin.chunk| < BLOCK_SIZE)
  }

  lemma MainWellFormed(l: Limits, me: Host, outcome: int)
    requires WellFormed(me)
    ensures WellFormed(MainSelect(me)) && WellFormed(MainRead(me, outcome)) && WellFormed(MainWrite(l, me, outcome))
  {
  }

  lemma PluginWellFormed(l: Limits, me: Host, outcome: int)
    requires WellFormed(me)
    ensures WellFormed(PluginSelect(me)) && WellFormed(PluginRead(me, outcome))
    ensures WellFormed(PluginWrite(l, me, outcome))
  {
  }

  lemma StepWellFormed(l: Limits, me: Host, peer: Host, action: Action)
    requires WellFormed(me) && WellFormed(peer)
    ensures var (me', peer') := Act(l, me, peer, action);
            WellFormed(me') && WellFormed(peer')
  {
    match action
    case FrameArrives(frame) =>
    case MainSelects => MainWellFormed(l, me, 0);
    case MainReads(outcome) => MainWellFormed(l, me, outcome);
    case MainWrites(outcome) => MainWellFormed(l, me, outcome);
    case PluginSelects => PluginWellFormed(l, me, 0);
    case PluginReads(outcome) => PluginWellFormed(l, me, outcome);
    case PluginWrites(outcome) => PluginWellFormed(l, me, outcome);
    case NetworkCarries(outcome) =>
  }
}
