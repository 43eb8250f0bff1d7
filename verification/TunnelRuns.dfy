/**
 The tunnel over whole runs: where every byte is, what short writes cost, and which frames
 survive the trip.
 */
module TunnelRuns {
  import opened Bits
  import opened Io
  import opened Cells
  import opened Tunnel
  import opened TunnelFlow

  function Direction(from: Side, side: Side): Branch {
    if side == from then Outbound else Inbound
  }

  /** The row from one side to the other. */
  function Way(s: State, from: Side): (row: Row)
    ensures |row| == 9 && row[0] == s.Of(Other(from)).delivered
  {
    Path(s.Of(from), s.Of(Other(from)))
  }

  ghost predicate Good(s: State) {
    WellFormed(s.client) && WellFormed(s.server)
  }

  /** All bytes dropped in a direction during a run. */
  function TotalLoss(l: Limits, s: State, run: seq<Event>, from: Side): nat {
    if run == [] then 0
    else
      var before, e := run[..|run| - 1], run[|run| - 1];
      TotalLoss(l, s, before, from) + Loss(l, Run(l, s, before).Of(e.side), e.action, Direction(from, e.side))
  }

  lemma StepGood(l: Limits, s: State, e: Event)
    requires Good(s)
    ensures Good(Step(l, s, e))
  {
    StepWellFormed(l, s.Of(e.side), s.Of(Other(e.side)), e.action);
  }

  lemma StepFlows(l: Limits, s: State, e: Event, from: Side)
    requires Good(s)
    ensures FlowStep(Way(s, from), Way(Step(l, s, e), from), s.Of(from).taken, Step(l, s, e).Of(from).taken,
                     Loss(l, s.Of(e.side), e.action, Direction(from, e.side)))
  {
    ActFlows(l, s.Of(e.side), s.Of(Other(e.side)), e.action);
  }

  lemma StepAccounted(l: Limits, s: State, e: Event, from: Side)
    requires Good(s) && Subsequence(Flat(Way(s, from)), s.Of(from).taken)
    ensures var t := Step(l, s, e);
            && Subsequence(Flat(Way(t, from)), t.Of(from).taken)
            && |t.Of(from).taken| - |Flat(Way(t, from))|
               == |s.Of(from).taken| - |Flat(Way(s, from))| + Loss(l, s.Of(e.side), e.action, Direction(from, e.side))
  {
    StepFlows(l, s, e, from);
    FlowKeeps(Way(s, from), Way(Step(l, s, e), from), s.Of(from).taken, Step(l, s, e).Of(from).taken,
              Loss(l, s.Of(e.side), e.action, Direction(from, e.side)));
  }

  /** For every interleaving and every outcome of every call: what is on its way is a subsequence
      of what was taken, and shorter by exactly the bytes that short writes dropped. */
  lemma {:induction false} EveryByteAccounted(l: Limits, run: seq<Event>, from: Side)
    ensures var s := Run(l, START, run);
            && Good(s)
            && Subsequence(Flat(Way(s, from)), s.Of(from).taken)
            && |s.Of(from).taken| == |Flat(Way(s, from))| + TotalLoss(l, START, run, from)
  {
    if run == [] {
      NineCells(Way(START, from));
    } else {
      var before, e := run[..|run| - 1], run[|run| - 1];
      EveryByteAccounted(l, before, from);
      StepGood(l, Run(l, START, before), e);
      StepAccounted(l, Run(l, START, before), e, from);
    }
  }

  /** Nothing is invented, duplicated or reordered, whatever the calls return. */
  lemma DeliveredIsSubsequence(l: Limits, run: seq<Event>, from: Side)
    ensures var s := Run(l, START, run);
            Subsequence(s.Of(Other(from)).delivered, s.Of(from).taken)
  {
    EveryByteAccounted(l, run, from);
    var row := Way(Run(l, START, run), from);
    SubsequencePrefix(row[0], Flat(row[1..]), Run(l, START, run).Of(from).taken);
  }

  /** Not a write that is cut short or fails. */
  predicate Complete(action: Action) {
    match action
    case MainWrites(outcome) => outcome >= BLOCK_SIZE
    case PluginWrites(outcome) => outcome >= BLOCK_SIZE
    case _ => true
  }

  ghost predicate CompleteWrites(run: seq<Event>) {
    forall i :: 0 <= i < |run| ==> Complete(run[i].action)
  }

  lemma FullWritesLoseNothing(l: Limits, me: Host, peer: Host, action: Action, branch: Branch)
    requires WellFormed(me) && Complete(action)
    ensures Loss(l, me, action, branch) == 0
  {
  }

  lemma {:induction false} CompleteWritesLoseNothing(l: Limits, run: seq<Event>, from: Side)
    requires CompleteWrites(run)
    ensures TotalLoss(l, START, run, from) == 0
  {
    if run != [] {
      var before, e := run[..|run| - 1], run[|run| - 1];
      CompleteWritesLoseNothing(l, before, from);
      EveryByteAccounted(l, before, from);
      var s := Run(l, START, before);
      FullWritesLoseNothing(l, s.Of(e.side), s.Of(Other(e.side)), e.action, Direction(from, e.side));
    }
  }

  /** The tunnel conserves the stream exactly when no write dropped anything; with complete writes
      it always does. */
  lemma Conservation(l: Limits, run: seq<Event>, from: Side)
    ensures var s := Run(l, START, run);
            Flat(Way(s, from)) == s.Of(from).taken <==> TotalLoss(l, START, run, from) == 0
    ensures CompleteWrites(run) ==> Flat(Way(Run(l, START, run), from)) == Run(l, START, run).Of(from).taken
  {
    EveryByteAccounted(l, run, from);
    SubsequenceLength(Flat(Way(Run(l, START, run), from)), Run(l, START, run).Of(from).taken);
    if CompleteWrites(run) {
      CompleteWritesLoseNothing(l, run, from);
    }
  }

  /** Conservation spelled out: taken from one TAP device is delivered at the other, then what the
      far main loop holds, the far pipe_from_plugin, what the far plugin holds, what the far socket
      has received, what the near socket has yet to send, what the near plugin holds,
      the near pipe_to_plugin and what the near main loop holds. */
  lemma ConservationByPlace(l: Limits, run: seq<Event>, from: Side)
    requires CompleteWrites(run)
    ensures var s := Run(l, START, run);
            var me, peer := s.Of(from), s.Of(Other(from));
            me.taken == peer.delivered + Held(peer.main, Inbound) + peer.pipeFrom + Held(peer.plugin, Inbound)
                      + peer.inbox + me.wire + Held(me.plugin, Outbound) + me.pipeTo + Held(me.main, Outbound)
  {
    Conservation(l, run, from);
    NineCells(Way(Run(l, START, run), from));
  }

  // ---- frames ----

  function NewFrames(action: Action): seq<Frame> {
    if action.FrameArrives? then [action.frame] else []
  }

  function ArrivedFrames(run: seq<Event>, side: Side): seq<Frame> {
    if run == [] then []
    else
      var e := run[|run| - 1];
      ArrivedFrames(run[..|run| - 1], side) + (if e.side == side then NewFrames(e.action) else [])
  }

  /** What a full read of the device keeps of a frame. */
  function CutFrame(f: Frame): seq<byte> {
    f[..Min(BLOCK_SIZE - 1, |f|)]
  }

  function Cut(frames: seq<Frame>): seq<byte> {
    if frames == [] then [] else CutFrame(frames[0]) + Cut(frames[1..])
  }

  function Whole(frames: seq<Frame>): seq<byte> {
    if frames == [] then [] else frames[0] + Whole(frames[1..])
  }

  lemma {:induction false} CutAppend(fs: seq<Frame>, f: Frame)
    ensures Cut(fs + [f]) == Cut(fs) + CutFrame(f)
  {
    if fs == [] {
      assert Cut([f]) == CutFrame(f) + Cut([]);
    } else {
      assert (fs + [f])[1..] == fs[1..] + [f];
      CutAppend(fs[1..], f);
    }
  }

  /** Frames come through the reads unharmed exactly when none is longer than BLOCK_SIZE - 1. */
  lemma {:induction false} CutIsWhole(fs: seq<Frame>)
    ensures |Cut(fs)| <= |Whole(fs)|
    ensures Cut(fs) == Whole(fs) <==> forall i :: 0 <= i < |fs| ==> |fs[i]| <= 1504
  {
    if fs != [] {
      CutIsWhole(fs[1..]);
      var f := fs[0];
      if |f| <= BLOCK_SIZE - 1 {
        assert CutFrame(f) == f;
        assert Cut(fs)[|f|..] == Cut(fs[1..]) && Whole(fs)[|f|..] == Whole(fs[1..]);
        assert (forall i :: 0 <= i < |fs| ==> |fs[i]| <= BLOCK_SIZE - 1)
               <==> (forall i :: 0 <= i < |fs[1..]| ==> |fs[1..][i]| <= BLOCK_SIZE - 1) by {
          assert forall i :: 0 < i < |fs| ==> fs[i] == fs[1..][i - 1];
        }
      }
    }
  }

  /** A read of a device either fails or returns all it has room for; reads of pipes and sockets may
      be short. */
  predicate WholeRead(me: Host, action: Action) {
    action.MainReads? && me.main == Reading(Outbound) ==> action.outcome <= 0 || action.outcome >= BLOCK_SIZE - 1
  }

  ghost predicate WholeReads(l: Limits, s: State, run: seq<Event>) {
    forall i :: 0 <= i < |run| ==> WholeRead(Run(l, s, run[..i]).Of(run[i].side), run[i].action)
  }

  lemma WholeReadsFront(l: Limits, s: State, run: seq<Event>)
    requires run != [] && WholeReads(l, s, run)
    ensures var n := |run| - 1;
            WholeReads(l, s, run[..n]) && WholeRead(Run(l, s, run[..n]).Of(run[n].side), run[n].action)
  {
    var before := run[..|run| - 1];
    forall i | 0 <= i < |before| ensures before[..i] == run[..i] {}
  }

  lemma ReadTakes(me: Host, outcome: int)
    requires WholeRead(me, MainReads(outcome))
    ensures var me' := MainRead(me, outcome);
            me'.taken + Cut(me'.tapIn) == me.taken + Cut(me.tapIn)
  {
    if me.main == Reading(Outbound) && me.tapIn != [] && outcome > 0 {
      Assoc(me.taken, CutFrame(me.tapIn[0]), Cut(me.tapIn[1..]));
    }
  }

  lemma ActTakes(l: Limits, me: Host, peer: Host, action: Action)
    requires WholeRead(me, action)
    ensures var (me', peer') := Act(l, me, peer, action);
            && me'.taken + Cut(me'.tapIn) == me.taken + Cut(me.tapIn + NewFrames(action))
            && peer'.taken == peer.taken && peer'.tapIn == peer.tapIn
  {
    assert me.tapIn + [] == me.tapIn;
    if action.MainReads? {
      ReadTakes(me, action.outcome);
    }
  }

  lemma ExtendCut(taken: seq<byte>, waiting: seq<Frame>, arrived: seq<Frame>, f: Frame)
    requires taken + Cut(waiting) == Cut(arrived)
    ensures taken + Cut(waiting + [f]) == Cut(arrived + [f])
  {
    CutAppend(waiting, f);
    CutAppend(arrived, f);
    Assoc(taken, Cut(waiting), CutFrame(f));
  }

  lemma StepTakes(l: Limits, s: State, e: Event, side: Side, arrived: seq<Frame>)
    requires s.Of(side).taken + Cut(s.Of(side).tapIn) == Cut(arrived)
    requires WholeRead(s.Of(e.side), e.action)
    ensures var me := Step(l, s, e).Of(side);
            me.taken + Cut(me.tapIn) == Cut(arrived + (if e.side == side then NewFrames(e.action) else []))
  {
    ActTakes(l, s.Of(e.side), s.Of(Other(e.side)), e.action);
    NoNewFrames(arrived);
    NoNewFrames(s.Of(side).tapIn);
    if e.side == side && e.action.FrameArrives? {
      ExtendCut(s.Of(side).taken, s.Of(side).tapIn, arrived, e.action.frame);
    }
  }

  lemma NoNewFrames(fs: seq<Frame>)
    ensures fs + [] == fs
  {
  }

  /** What was read from a device and what still waits there is what arrived, each frame cut. */
  lemma {:induction false} TakenFromFrames(l: Limits, run: seq<Event>, side: Side)
    requires WholeReads(l, START, run)
    ensures var me := Run(l, START, run).Of(side);
            me.taken + Cut(me.tapIn) == Cut(ArrivedFrames(run, side))
  {
    if run != [] {
      var before, e := run[..|run| - 1], run[|run| - 1];
      WholeReadsFront(l, START, run);
      TakenFromFrames(l, before, side);
      EveryByteAccounted(l, before, side);
      StepTakes(l, Run(l, START, before), e, side, ArrivedFrames(before, side));
    }
  }
}
