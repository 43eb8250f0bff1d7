/**
 The deadlock of a host is not just a bad state on paper.  Whether a schedule without failing
 calls can reach it is decided by the frames that wait at the two devices: exactly if, in both
 directions, they are more than a pipe holds.
 */
module TunnelDeadlock {
  import opened Bits
  import opened Io
  import opened Tunnel
  import opened TunnelRuns
  import opened TunnelProgress
  import opened TunnelDrain

  // ---- schedules of full calls ----

  /** Calls complete or block, and frames may arrive. */
  ghost predicate Ordinary(run: seq<Event>) {
    forall i :: 0 <= i < |run| ==> Full(run[i].action) || run[i].action.FrameArrives?
  }

  ghost predicate FullCalls(run: seq<Event>) {
    forall i :: 0 <= i < |run| ==> Full(run[i].action)
  }

  /** Some schedule of full calls leads from s to t. */
  ghost predicate Reaches(l: Limits, s: State, t: State) {
    exists run :: FullCalls(run) && Run(l, s, run) == t
  }

  lemma ReachesSelf(l: Limits, s: State)
    ensures Reaches(l, s, s)
  {
    assert FullCalls([]) && Run(l, s, []) == s;
  }

  lemma ReachesStep(l: Limits, s: State, t: State, e: Event)
    requires Reaches(l, s, t) && Full(e.action)
    ensures Reaches(l, s, Step(l, t, e))
  {
    var run :| FullCalls(run) && Run(l, s, run) == t;
    assert (run + [e])[..|run|] == run;
    assert FullCalls(run + [e]) && Run(l, s, run + [e]) == Step(l, t, e);
  }

  function Put(s: State, side: Side, h: Host): State {
    if side.Client? then s.(client := h) else s.(server := h)
  }

  /** A call that only changes its own host. */
  lemma Call(l: Limits, s0: State, s: State, side: Side, action: Action, h: Host)
    requires Reaches(l, s0, s) && Full(action)
    requires Act(l, s.Of(side), s.Of(Other(side)), action) == (h, s.Of(Other(side)))
    ensures Reaches(l, s0, Put(s, side, h))
  {
    ReachesStep(l, s0, s, Event(side, action));
  }

  // ---- one frame, one call after the other ----

  lemma WholeChunk(c: seq<byte>)
    ensures c[..|c|] == c && c[|c|..] == [] && [] + c == c
  {
  }

  /** A host whose main loop has read the next frame and stands before its write. */
  function FrameHeld(me: Host): Host
    requires me.tapIn != []
  {
    var c := CutFrame(me.tapIn[0]);
    me.(tapIn := me.tapIn[1..], taken := me.taken + c, main := Writing(Outbound, c))
  }

  /** And the same host after that write. */
  function FramePiped(me: Host): Host
    requires me.tapIn != []
  {
    var c := CutFrame(me.tapIn[0]);
    me.(tapIn := me.tapIn[1..], taken := me.taken + c, pipeTo := me.pipeTo + c)
  }

  lemma ReadFrame(l: Limits, s0: State, s: State, side: Side)
    requires Reaches(l, s0, s) && s.Of(side).main.Selecting? && s.Of(side).tapIn != []
    ensures Reaches(l, s0, Put(s, side, FrameHeld(s.Of(side))))
  {
    var me := s.Of(side);
    var ready := me.(main := Reading(Outbound));
    Call(l, s0, s, side, MainSelects, ready);
    Call(l, s0, Put(s, side, ready), side, MainReads(BLOCK_SIZE), FrameHeld(me));
  }

  lemma PipeFrame(l: Limits, s0: State, s: State, side: Side)
    requires Reaches(l, s0, s) && s.Of(side).main.Selecting? && s.Of(side).tapIn != []
    requires |s.Of(side).pipeTo| + |CutFrame(s.Of(side).tapIn[0])| <= l.pipe
    ensures Reaches(l, s0, Put(s, side, FramePiped(s.Of(side))))
  {
    var me := s.Of(side);
    ReadFrame(l, s0, s, side);
    WholeChunk(CutFrame(me.tapIn[0]));
    Call(l, s0, Put(s, side, FrameHeld(me)), side, MainWrites(BLOCK_SIZE), FramePiped(me));
  }

  /** The plugin turns to its pipe, empties it and stands before its send. */
  lemma ReadPipe(l: Limits, s0: State, s: State, side: Side)
    requires Reaches(l, s0, s) && s.Of(side).plugin.Selecting? && s.Of(side).inbox == []
    requires 0 < |s.Of(side).pipeTo| <= BLOCK_SIZE - 1
    ensures Reaches(l, s0, Put(s, side, s.Of(side).(pipeTo := [], plugin := Writing(Outbound, s.Of(side).pipeTo))))
  {
    var me := s.Of(side);
    var ready := me.(plugin := Reading(Outbound));
    Call(l, s0, s, side, PluginSelects, ready);
    WholeChunk(me.pipeTo);
    Call(l, s0, Put(s, side, ready), side, PluginReads(BLOCK_SIZE),
         me.(pipeTo := [], plugin := Writing(Outbound, me.pipeTo)));
  }

  lemma SendPipe(l: Limits, s0: State, s: State, side: Side)
    requires Reaches(l, s0, s) && s.Of(side).plugin.Selecting? && s.Of(side).inbox == []
    requires 0 < |s.Of(side).pipeTo| <= BLOCK_SIZE - 1 && |s.Of(side).wire| + |s.Of(side).pipeTo| <= l.wire
    ensures Reaches(l, s0, Put(s, side, s.Of(side).(pipeTo := [], wire := s.Of(side).wire + s.Of(side).pipeTo)))
  {
    var me := s.Of(side);
    ReadPipe(l, s0, s, side);
    WholeChunk(me.pipeTo);
    Call(l, s0, Put(s, side, me.(pipeTo := [], plugin := Writing(Outbound, me.pipeTo))), side, PluginWrites(BLOCK_SIZE),
         me.(pipeTo := [], wire := me.wire + me.pipeTo));
  }

  /** The network brings all that the server has sent. */
  lemma Bring(l: Limits, s0: State, s: State)
    requires Reaches(l, s0, s) && s.client.inbox == [] && 0 < |s.server.wire| <= l.inbox
    ensures Reaches(l, s0, State(s.client.(inbox := s.server.wire), s.server.(wire := [])))
  {
    var c := s.server.wire;
    WholeChunk(c);
    assert Carry(l, s.server, s.client, |c|) == (s.server.(wire := []), s.client.(inbox := c));
    ReachesStep(l, s0, s, Event(Server, NetworkCarries(|c|)));
  }

  /** The client's plugin takes it and stands before its write to the pipe. */
  lemma Receive(l: Limits, s0: State, s: State)
    requires Reaches(l, s0, s) && s.client.plugin.Selecting? && 0 < |s.client.inbox| <= BLOCK_SIZE - 1
    ensures Reaches(l, s0, Put(s, Client, s.client.(inbox := [], plugin := Writing(Inbound, s.client.inbox))))
  {
    var c := s.client.inbox;
    var ready := s.client.(plugin := Reading(Inbound));
    Call(l, s0, s, Client, PluginSelects, ready);
    WholeChunk(c);
    Call(l, s0, Put(s, Client, ready), Client, PluginReads(BLOCK_SIZE),
         s.client.(inbox := [], plugin := Writing(Inbound, c)));
  }

  // ---- filling the two pipes of the client ----

  /** Each frame, as a read cuts it, passes through an empty pipe and an empty stream. */
  ghost predicate Fit(l: Limits, frames: seq<Frame>) {
    forall i :: 0 <= i < |frames| ==> |CutFrame(frames[i])| <= Min(l.pipe, Min(l.wire, l.inbox))
  }

  /** A frame of the server goes all the way to the client's plugin. */
  lemma ServeFrame(l: Limits, s0: State, s: State)
    requires Reaches(l, s0, s) && s.client.plugin.Selecting? && s.client.inbox == []
    requires s.server.main.Selecting? && s.server.plugin.Selecting?
    requires s.server.pipeTo == [] && s.server.wire == [] && s.server.inbox == []
    requires s.server.tapIn != [] && Fit(l, s.server.tapIn)
    ensures var c := CutFrame(s.server.tapIn[0]);
            Reaches(l, s0, State(s.client.(plugin := Writing(Inbound, c)),
                                 s.server.(tapIn := s.server.tapIn[1..], taken := s.server.taken + c)))
  {
    var me, c := s.server, CutFrame(s.server.tapIn[0]);
    WholeChunk(c);
    PipeFrame(l, s0, s, Server);
    var piped := me.(tapIn := me.tapIn[1..], taken := me.taken + c, pipeTo := c);
    assert FramePiped(me) == piped;
    SendPipe(l, s0, State(s.client, piped), Server);
    Bring(l, s0, State(s.client, piped.(pipeTo := [], wire := c)));
    Receive(l, s0, State(s.client.(inbox := c), piped.(pipeTo := [])));
  }

  /** Frames from the server pile up until the client's plugin blocks. */
  lemma {:induction false} FillInbound(l: Limits, s0: State, s: State) returns (t: State)
    requires Reaches(l, s0, s) && s.client.plugin.Selecting? && s.client.inbox == []
    requires s.server.main.Selecting? && s.server.plugin.Selecting?
    requires s.server.pipeTo == [] && s.server.wire == [] && s.server.inbox == []
    requires Fit(l, s.server.tapIn) && |s.client.pipeFrom| <= l.pipe < |s.client.pipeFrom| + |Cut(s.server.tapIn)|
    ensures Reaches(l, s0, t) && PluginBlocked(l, t.client, Inbound)
    ensures t.client == s.client.(pipeFrom := t.client.pipeFrom, plugin := t.client.plugin)
    decreases |s.server.tapIn|
  {
    var c := CutFrame(s.server.tapIn[0]);
    ServeFrame(l, s0, s);
    t := State(s.client.(plugin := Writing(Inbound, c)),
               s.server.(tapIn := s.server.tapIn[1..], taken := s.server.taken + c));
    if |s.client.pipeFrom| + |c| <= l.pipe {
      WholeChunk(c);
      var next := s.client.(pipeFrom := s.client.pipeFrom + c);
      Call(l, s0, t, Client, PluginWrites(BLOCK_SIZE), next);
      t := FillInbound(l, s0, State(next, t.server));
    }
  }

  /** With the plugin blocked, the client's own frames pile up until its main loop blocks. */
  lemma {:induction false} FillOutbound(l: Limits, s0: State, s: State) returns (t: State)
    requires Reaches(l, s0, s) && s.client.main.Selecting? && PluginBlocked(l, s.client, Inbound)
    requires |s.client.pipeTo| <= l.pipe < |s.client.pipeTo| + |Cut(s.client.tapIn)|
    ensures Reaches(l, s0, t) && HostDeadlock(l, t.client)
    decreases |s.client.tapIn|
  {
    if |s.client.pipeTo| + |CutFrame(s.client.tapIn[0])| <= l.pipe {
      PipeFrame(l, s0, s, Client);
      t := FillOutbound(l, s0, Put(s, Client, FramePiped(s.client)));
    } else {
      ReadFrame(l, s0, s, Client);
      t := Put(s, Client, FrameHeld(s.client));
    }
  }

  // ---- frames waiting at the two devices ----

  /** Two idle hosts with frames at their devices. */
  function Loaded(cf: seq<Frame>, sf: seq<Frame>): State {
    State(IDLE.(tapIn := cf), IDLE.(tapIn := sf))
  }

  function Arrivals(side: Side, frames: seq<Frame>): seq<Event> {
    if frames == [] then []
    else Arrivals(side, frames[..|frames| - 1]) + [Event(side, FrameArrives(frames[|frames| - 1]))]
  }

  /** The same state with more frames at a device. */
  function WithFrames(s: State, side: Side, frames: seq<Frame>): State {
    Put(s, side, s.Of(side).(tapIn := s.Of(side).tapIn + frames))
  }

  lemma OneArrival(l: Limits, s: State, run: seq<Event>, side: Side, first: seq<Frame>, f: Frame)
    requires Run(l, s, run) == WithFrames(s, side, first)
    ensures Run(l, s, run + [Event(side, FrameArrives(f))]) == WithFrames(s, side, first + [f])
  {
    assert (run + [Event(side, FrameArrives(f))])[..|run|] == run;
    assert (s.Of(side).tapIn + first) + [f] == s.Of(side).tapIn + (first + [f]);
  }

  lemma {:induction false} RunArrivals(l: Limits, s: State, side: Side, frames: seq<Frame>)
    ensures Run(l, s, Arrivals(side, frames)) == WithFrames(s, side, frames)
  {
    if frames == [] {
      assert s.Of(side).tapIn + [] == s.Of(side).tapIn;
    } else {
      var first, last := frames[..|frames| - 1], frames[|frames| - 1];
      RunArrivals(l, s, side, first);
      OneArrival(l, s, Arrivals(side, first), side, first, last);
      assert first + [last] == frames;
    }
  }

  lemma {:induction false} OnlyArrivals(side: Side, frames: seq<Frame>)
    ensures forall e :: e in Arrivals(side, frames) ==> e.action.FrameArrives?
  {
    if frames != [] {
      OnlyArrivals(side, frames[..|frames| - 1]);
    }
  }

  function Loading(cf: seq<Frame>, sf: seq<Frame>): seq<Event> {
    Arrivals(Client, cf) + Arrivals(Server, sf)
  }

  lemma RunLoading(l: Limits, cf: seq<Frame>, sf: seq<Frame>, rest: seq<Event>)
    ensures Run(l, START, Loading(cf, sf)) == Loaded(cf, sf)
    ensures Run(l, START, Loading(cf, sf) + rest) == Run(l, Loaded(cf, sf), rest)
    ensures forall i :: 0 <= i < |Loading(cf, sf)| ==> Loading(cf, sf)[i].action.FrameArrives?
  {
    RunArrivals(l, START, Client, cf);
    RunAppend(l, START, Arrivals(Client, cf), Arrivals(Server, sf));
    RunArrivals(l, Run(l, START, Arrivals(Client, cf)), Server, sf);
    OnlyArrivals(Client, cf);
    OnlyArrivals(Server, sf);
    assert [] + cf == cf && [] + sf == sf;
    RunAppend(l, START, Loading(cf, sf), rest);
    forall i | 0 <= i < |Loading(cf, sf)| ensures Loading(cf, sf)[i].action.FrameArrives? {
      assert Loading(cf, sf)[i] in Arrivals(Client, cf) || Loading(cf, sf)[i] in Arrivals(Server, sf);
    }
  }

  lemma ManyFramesDeadlock(l: Limits, cf: seq<Frame>, sf: seq<Frame>) returns (run: seq<Event>)
    requires |Cut(cf)| > l.pipe && |Cut(sf)| > l.pipe && Fit(l, sf)
    ensures FullCalls(run) && HostDeadlock(l, Run(l, Loaded(cf, sf), run).client)
  {
    var s := Loaded(cf, sf);
    ReachesSelf(l, s);
    var t := FillInbound(l, s, s);
    t := FillOutbound(l, s, t);
    run :| FullCalls(run) && Run(l, s, run) == t;
  }

  /** Without arrivals, whatever calls return, a deadlock takes more bytes in both directions than
      a pipe holds. */
  lemma DeadlockTakesMany(l: Limits, cf: seq<Frame>, sf: seq<Frame>, run: seq<Event>)
    requires NoArrivals(run) && Deadlocked(l, Run(l, Loaded(cf, sf), run))
    ensures |Cut(cf)| > l.pipe && |Cut(sf)| > l.pipe
  {
    var s := Loaded(cf, sf);
    RunLoading(l, cf, sf, run);
    assert Pending(s, Client) == |Cut(cf)| && Pending(s, Server) == |Cut(sf)|;
    if Room(l, s) {
      RoomAtTheEnd(l, Loading(cf, sf), run);
    }
  }

  /** Some schedule of the waiting frames deadlocks a host exactly if there are more bytes of them at
      both devices than a pipe holds. */
  lemma DeadlockExactly(l: Limits, cf: seq<Frame>, sf: seq<Frame>)
    requires Fit(l, sf)
    ensures (exists run :: FullCalls(run) && Deadlocked(l, Run(l, Loaded(cf, sf), run)))
            <==> |Cut(cf)| > l.pipe && |Cut(sf)| > l.pipe
  {
    if |Cut(cf)| > l.pipe && |Cut(sf)| > l.pipe {
      var run := ManyFramesDeadlock(l, cf, sf);
      assert Deadlocked(l, Run(l, Loaded(cf, sf), run));
    }
    forall run | FullCalls(run) && Deadlocked(l, Run(l, Loaded(cf, sf), run))
      ensures |Cut(cf)| > l.pipe && |Cut(sf)| > l.pipe
    {
      assert NoArrivals(run);
      DeadlockTakesMany(l, cf, sf, run);
    }
  }

  // ---- draining, exactly ----

  /** Some full call of this host's threads, or the network, does something. */
  lemma CanMove(l: Limits, s0: State, s: State, side: Side) returns (t: State)
    requires Reaches(l, s0, s) && Good(s)
    requires !HostStuck(l, s.Of(side), s.Of(Other(side)))
    ensures Reaches(l, s0, t) && Good(t) && Measure(t.client, t.server) < Measure(s.client, s.server)
  {
    var me, peer := s.Of(side), s.Of(Other(side));
    StuckExactly(l, me, peer);
    var action :| Full(action) && Act(l, me, peer, action) != (me, peer);
    t := Step(l, s, Event(side, action));
    ReachesStep(l, s0, s, Event(side, action));
    StepGood(l, s, Event(side, action));
    Progress(l, me, peer, action);
    MeasureSymmetric(s.client, s.server);
    MeasureSymmetric(t.client, t.server);
  }

  /** From everywhere a halt can be reached. */
  lemma {:induction false} CanHalt(l: Limits, s0: State, s: State) returns (t: State)
    requires Reaches(l, s0, s) && Good(s)
    ensures Reaches(l, s0, t) && Stuck(l, t)
    decreases Measure(s.client, s.server)
  {
    if Stuck(l, s) {
      t := s;
    } else {
      var next := CanMove(l, s0, s, if HostStuck(l, s.client, s.server) then Server else Client);
      t := CanHalt(l, s0, next);
    }
  }

  /** Every frame that waited at a device, as a read cuts it, has come out at the other. */
  predicate Delivers(t: State, cf: seq<Frame>, sf: seq<Frame>) {
    t.server.delivered == Cut(cf) && t.client.delivered == Cut(sf)
  }

  lemma WhatWaited(l: Limits, cf: seq<Frame>, sf: seq<Frame>)
    ensures Cut(ArrivedFrames(Loading(cf, sf), Client)) == Cut(cf)
    ensures Cut(ArrivedFrames(Loading(cf, sf), Server)) == Cut(sf)
  {
    RunLoading(l, cf, sf, []);
    TakenFromFrames(l, Loading(cf, sf), Client);
    TakenFromFrames(l, Loading(cf, sf), Server);
    assert [] + Cut(cf) == Cut(cf) && [] + Cut(sf) == Cut(sf);
  }

  /** Frames do not arrive, writes are complete and a read of a device takes all it has room for or
      fails; reads of pipes and sockets may be short or fail. */
  ghost predicate Lossless(l: Limits, s: State, run: seq<Event>) {
    NoArrivals(run) && CompleteWrites(run) && WholeReads(l, s, run)
  }

  lemma FullCallsLossless(l: Limits, s: State, run: seq<Event>)
    requires FullCalls(run)
    ensures Lossless(l, s, run)
  {
  }

  lemma LosslessFromStart(l: Limits, cf: seq<Frame>, sf: seq<Frame>, run: seq<Event>)
    requires Lossless(l, Loaded(cf, sf), run)
    ensures CompleteWrites(Loading(cf, sf) + run) && WholeReads(l, START, Loading(cf, sf) + run)
  {
    var past := Loading(cf, sf);
    var all := past + run;
    RunLoading(l, cf, sf, run);
    forall i | 0 <= i < |all|
      ensures Complete(all[i].action) && WholeRead(Run(l, START, all[..i]).Of(all[i].side), all[i].action)
    {
      if i < |past| {
        assert all[i] == past[i];
      } else {
        var k := i - |past|;
        assert all[i] == run[k] && all[..i] == past + run[..k];
        RunLoading(l, cf, sf, run[..k]);
      }
    }
  }

  lemma DeliversAll(l: Limits, cf: seq<Frame>, sf: seq<Frame>, run: seq<Event>)
    requires NoArrivals(run)
    ensures var past := Loading(cf, sf);
            AllDelivered(Run(l, START, past + run), past + run) <==> Delivers(Run(l, Loaded(cf, sf), run), cf, sf)
  {
    var past := Loading(cf, sf);
    RunLoading(l, cf, sf, run);
    WhatWaited(l, cf, sf);
    forall side: Side ensures ArrivedFrames(past + run, side) == ArrivedFrames(past, side) {
      ArrivalsAppend(past, run, side);
    }
    assert Other(Client) == Server && Other(Server) == Client;
  }

  /** A lossless schedule that halts has delivered all frames exactly if it has not deadlocked a host. */
  lemma HaltOfFrames(l: Limits, cf: seq<Frame>, sf: seq<Frame>, run: seq<Event>)
    requires Roomy(l) && Lossless(l, Loaded(cf, sf), run) && Stuck(l, Run(l, Loaded(cf, sf), run))
    ensures Delivers(Run(l, Loaded(cf, sf), run), cf, sf) <==> !Deadlocked(l, Run(l, Loaded(cf, sf), run))
  {
    RunLoading(l, cf, sf, run);
    LosslessFromStart(l, cf, sf, run);
    DeliversAll(l, cf, sf, run);
    HaltDelivers(l, Loading(cf, sf) + run);
  }

  /** If in one of the two directions the waiting frames are no more than a pipe holds, every lossless
      schedule that halts has delivered all of them; if not, some schedule of full calls halts
      without having done so. */
  lemma DrainsExactly(l: Limits, cf: seq<Frame>, sf: seq<Frame>)
    requires Roomy(l)
    ensures |Cut(cf)| <= l.pipe || |Cut(sf)| <= l.pipe ==>
              forall run :: Lossless(l, Loaded(cf, sf), run) && Stuck(l, Run(l, Loaded(cf, sf), run)) ==>
                Delivers(Run(l, Loaded(cf, sf), run), cf, sf)
    ensures |Cut(cf)| > l.pipe && |Cut(sf)| > l.pipe ==>
              exists run :: FullCalls(run) && Stuck(l, Run(l, Loaded(cf, sf), run))
                && !Delivers(Run(l, Loaded(cf, sf), run), cf, sf)
  {
    if |Cut(cf)| <= l.pipe || |Cut(sf)| <= l.pipe {
      forall run | Lossless(l, Loaded(cf, sf), run) && Stuck(l, Run(l, Loaded(cf, sf), run))
        ensures Delivers(Run(l, Loaded(cf, sf), run), cf, sf)
      {
        HaltOfFrames(l, cf, sf, run);
        if Deadlocked(l, Run(l, Loaded(cf, sf), run)) {
          DeadlockTakesMany(l, cf, sf, run);
        }
      }
    } else {
      var run := HaltUndelivered(l, cf, sf);
    }
  }

  /** A deadlocked tunnel comes to a halt, still deadlocked. */
  lemma HaltDeadlocked(l: Limits, s: State) returns (run: seq<Event>)
    requires Good(s) && HostDeadlock(l, s.client)
    ensures FullCalls(run) && Stuck(l, Run(l, s, run)) && Deadlocked(l, Run(l, s, run))
  {
    ReachesSelf(l, s);
    var t := CanHalt(l, s, s);
    run :| FullCalls(run) && Run(l, s, run) == t;
    FullCallsLossless(l, s, run);
    DeadlockForEver(l, s, run, Client);
  }

  lemma HaltUndelivered(l: Limits, cf: seq<Frame>, sf: seq<Frame>) returns (run: seq<Event>)
    requires Roomy(l) && |Cut(cf)| > l.pipe && |Cut(sf)| > l.pipe
    ensures FullCalls(run) && Stuck(l, Run(l, Loaded(cf, sf), run))
    ensures !Delivers(Run(l, Loaded(cf, sf), run), cf, sf)
  {
    var s := Loaded(cf, sf);
    var first := ManyFramesDeadlock(l, cf, sf);
    RunLoading(l, cf, sf, first);
    EveryByteAccounted(l, Loading(cf, sf) + first, Client);
    var more := HaltDeadlocked(l, Run(l, s, first));
    run := first + more;
    RunAppend(l, s, first, more);
    FullCallsLossless(l, s, run);
    HaltOfFrames(l, cf, sf, run);
  }

  // ---- from the start ----

  /** A frame repeated until it is more than a pipe holds. */
  lemma {:induction false} CutCopies(f: Frame, n: nat)
    requires |f| <= BLOCK_SIZE - 1
    ensures |Cut(seq(n, _ => f))| >= n
  {
    if n > 0 {
      CutCopies(f, n - 1);
      assert seq(n, _ => f)[1..] == seq(n - 1, _ => f);
    }
  }

  /** From the start, with pipes and sockets of any size that holds the frame, some schedule with
      no failing call deadlocks the client. */
  lemma DeadlockReachable(l: Limits, f: Frame)
    requires |f| <= Min(BLOCK_SIZE - 1, Min(l.pipe, Min(l.wire, l.inbox)))
    ensures exists run :: Ordinary(run) && HostDeadlock(l, Run(l, START, run).client)
  {
    var frames: seq<Frame> := seq(l.pipe + 1, _ => f);
    CutCopies(f, l.pipe + 1);
    var run := ManyFramesDeadlock(l, frames, frames);
    RunLoading(l, frames, frames, run);
    assert Ordinary(Loading(frames, frames) + run);
  }

  /** Nothing that can happen after this schedule delivers another byte to the client's device, as long
      as the client's own writes are complete. */
  ghost predicate Hung(l: Limits, run: seq<Event>) {
    forall more :: CompleteWritesOf(more, Client) ==>
      Run(l, START, run + more).client.delivered == Run(l, START, run).client.delivered
  }

  /** The tunnel can hang for ever although no call has failed and none will. */
  lemma TunnelCanHang(l: Limits, f: Frame)
    requires |f| <= Min(BLOCK_SIZE - 1, Min(l.pipe, Min(l.wire, l.inbox)))
    ensures exists run :: Ordinary(run) && Hung(l, run)
  {
    DeadlockReachable(l, f);
    var run :| Ordinary(run) && HostDeadlock(l, Run(l, START, run).client);
    forall more | CompleteWritesOf(more, Client)
      ensures Run(l, START, run + more).client.delivered == Run(l, START, run).client.delivered
    {
      RunAppend(l, START, run, more);
      EveryByteAccounted(l, run, Client);
      DeadlockForEver(l, Run(l, START, run), more, Client);
    }
  }

  // ---- the sockets ----

  /** One-byte frames, and then one of n bytes. */
  function Trickle(k: nat, n: nat): seq<Frame>
    requires n > 0
  {
    if k == 0 then [seq(n, _ => 0)] else [[0]] + Trickle(k - 1, n)
  }

  /** A host has filled its socket with k bytes and its plugin stands before the send of n more; the
      peer has not read anything. */
  ghost predicate Turned(me: Host, k: nat, n: nat) {
    && |me.wire| == k && me.inbox == [] && me.plugin.Writing? && me.plugin.branch.Outbound? && |me.plugin.chunk| == n
  }

  lemma TurnToPipe(l: Limits, s0: State, s: State, side: Side) returns (t: State)
    requires Reaches(l, s0, s) && s.Of(side).main.Selecting? && s.Of(side).plugin.Selecting?
    requires s.Of(side).pipeTo == [] && s.Of(side).inbox == [] && s.Of(side).tapIn != []
    requires |s.Of(side).tapIn[0]| <= Min(l.pipe, BLOCK_SIZE - 1)
    ensures Reaches(l, s0, t) && t.Of(Other(side)) == s.Of(Other(side))
    ensures Turned(t.Of(side), |s.Of(side).wire|, |s.Of(side).tapIn[0]|)
  {
    var me, f := s.Of(side), s.Of(side).tapIn[0];
    WholeChunk(f);
    PipeFrame(l, s0, s, side);
    ReadPipe(l, s0, Put(s, side, FramePiped(me)), side);
    t := Put(s, side, FramePiped(me).(pipeTo := [], plugin := Writing(Outbound, f)));
  }

  lemma SendByte(l: Limits, s0: State, s: State, side: Side) returns (t: State)
    requires Reaches(l, s0, s) && s.Of(side).main.Selecting? && s.Of(side).plugin.Selecting?
    requires s.Of(side).pipeTo == [] && s.Of(side).inbox == [] && s.Of(side).tapIn != []
    requires |s.Of(side).tapIn[0]| == 1 && |s.Of(side).wire| < l.wire && l.pipe > 0
    ensures Reaches(l, s0, t) && t.Of(Other(side)) == s.Of(Other(side)) && |t.Of(side).wire| == |s.Of(side).wire| + 1
    ensures var me, me' := s.Of(side), t.Of(side);
            && me'.main.Selecting? && me'.plugin.Selecting? && me'.pipeTo == [] && me'.inbox == []
            && me'.tapIn == me.tapIn[1..]
  {
    var me, f := s.Of(side), s.Of(side).tapIn[0];
    WholeChunk(f);
    PipeFrame(l, s0, s, side);
    SendPipe(l, s0, Put(s, side, FramePiped(me)), side);
    t := Put(s, side, FramePiped(me).(pipeTo := [], wire := me.wire + f));
  }

  lemma {:induction false} FillSocket(l: Limits, s0: State, s: State, side: Side, k: nat, n: nat) returns (t: State)
    requires Reaches(l, s0, s) && s.Of(side).main.Selecting? && s.Of(side).plugin.Selecting?
    requires s.Of(side).pipeTo == [] && s.Of(side).inbox == []
    requires 0 < n <= Min(l.pipe, BLOCK_SIZE - 1)
    requires s.Of(side).tapIn == Trickle(k, n) && |s.Of(side).wire| + k <= l.wire
    ensures Reaches(l, s0, t) && t.Of(Other(side)) == s.Of(Other(side))
    ensures Turned(t.Of(side), |s.Of(side).wire| + k, n)
    decreases k
  {
    if k == 0 {
      t := TurnToPipe(l, s0, s, side);
    } else {
      t := SendByte(l, s0, s, side);
      t := FillSocket(l, s0, t, side, k - 1, n);
    }
  }

  lemma BothTurn(l: Limits, k: nat, n: nat) returns (t: State)
    requires 0 < n <= Min(l.pipe, BLOCK_SIZE - 1) && k <= l.wire
    ensures Reaches(l, Loaded(Trickle(k, n), Trickle(k, n)), t) && Turned(t.client, k, n) && Turned(t.server, k, n)
  {
    var s := Loaded(Trickle(k, n), Trickle(k, n));
    ReachesSelf(l, s);
    t := FillSocket(l, s, s, Client, k, n);
    t := FillSocket(l, s, t, Server, k, n);
  }

  /** The network fills both receiving ends, and the two sends stay blocked. */
  lemma NetworkFills(l: Limits, s0: State, s: State, k: nat, n: nat) returns (t: State)
    requires Reaches(l, s0, s) && Turned(s.client, k, n) && Turned(s.server, k, n)
    requires (k == 0 && n > l.wire) || (k == l.wire >= l.inbox && n > l.inbox)
    ensures Reaches(l, s0, t) && WireDeadlock(l, t)
  {
    var enough := l.inbox + 1;
    var a := Event(Client, NetworkCarries(enough));
    ReachesStep(l, s0, s, a);
    var b := Event(Server, NetworkCarries(enough));
    ReachesStep(l, s0, Step(l, s, a), b);
    t := Step(l, Step(l, s, a), b);
  }

  lemma SmallSocketsDeadlock(l: Limits)
    requires Min(l.wire, l.inbox) < Min(l.pipe, BLOCK_SIZE - 1)
    ensures exists run :: WireDeadlock(l, Run(l, START, run))
  {
    var room := Min(l.pipe, BLOCK_SIZE - 1);
    var k, n := if l.wire < room then 0 else l.wire, 1 + if l.wire < room then l.wire else l.inbox;
    var s := Loaded(Trickle(k, n), Trickle(k, n));
    var t := BothTurn(l, k, n);
    t := NetworkFills(l, s, t, k, n);
    var run :| FullCalls(run) && Run(l, s, run) == t;
    RunLoading(l, Trickle(k, n), Trickle(k, n), run);
  }

  /** The two plugins can block each other in their sends exactly if a single read of the pipe can
      return more than an empty stream holds at its sending or at its receiving end. */
  lemma WireDeadlockExactly(l: Limits)
    ensures (exists run :: WireDeadlock(l, Run(l, START, run))) <==> Min(l.wire, l.inbox) < Min(l.pipe, BLOCK_SIZE - 1)
  {
    if Min(l.wire, l.inbox) < Min(l.pipe, BLOCK_SIZE - 1) {
      SmallSocketsDeadlock(l);
    } else {
      forall run ensures !WireDeadlock(l, Run(l, START, run)) {
        NoWireDeadlock(l, run);
      }
    }
  }
}
