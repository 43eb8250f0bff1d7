/**
 The loop bodies of main.c and tcp_plugin.c as they run: buffers of BLOCK_SIZE bytes that every
 pass overwrites from the front, and the byte count that read leaves for write.  Each method
 is one system call with its surrounding test, proved to be the step of the transition system.
 */
module TunnelLoops {
  import opened Bits
  import opened Io
  import opened Tunnel
  import opened TunnelCalls
  import Cells
  import TunnelRuns

  /** Where a thread stands; a blocked write leaves it there. */
  datatype Place = AtSelect | AtRead(branch: Branch) | AtWrite(branch: Branch)

  function StageOf(place: Place, bytes: seq<byte>): Stage {
    match place
    case AtSelect => Selecting
    case AtRead(branch) => Reading(branch)
    case AtWrite(branch) => Writing(branch, bytes)
  }

  class Machine {
    var tapIn: seq<Frame>
    ghost var taken: seq<byte>
    ghost var deviceWrites: seq<seq<byte>>
    var delivered: seq<byte>
    var pipeTo: seq<byte>
    var pipeFrom: seq<byte>
    var wire: seq<byte>
    var inbox: seq<byte>
    const mainBuffer: array<byte>
    const pluginBuffer: array<byte>
    var mainAt: Place
    var pluginAt: Place
    var mainBytes: nat
    var pluginBytes: nat

    ghost predicate Valid()
      reads this
    {
      && mainBuffer != pluginBuffer && mainBuffer.Length == pluginBuffer.Length == BLOCK_SIZE
      && mainBytes <= BLOCK_SIZE && pluginBytes <= BLOCK_SIZE
    }

    ghost function Snapshot(): Host
      reads this, mainBuffer, pluginBuffer
      requires Valid()
    {
      Host(tapIn, taken, delivered, pipeTo, pipeFrom, wire, inbox,
           StageOf(mainAt, mainBuffer[..mainBytes]), StageOf(pluginAt, pluginBuffer[..pluginBytes]))
    }

    constructor ()
      ensures Valid() && fresh(mainBuffer) && fresh(pluginBuffer) && Snapshot() == IDLE
    {
      tapIn, taken, delivered, pipeTo, pipeFrom, wire, inbox := [], [], [], [], [], [], [];
      deviceWrites := [];
      mainBuffer, pluginBuffer := new byte[BLOCK_SIZE], new byte[BLOCK_SIZE];
      mainAt, pluginAt, mainBytes, pluginBytes := AtSelect, AtSelect, 0, 0;
    }

    method FrameArrives(frame: Frame)
      requires Valid()
      modifies this`tapIn
      ensures Valid() && Snapshot() == old(Snapshot()).(tapIn := old(tapIn) + [frame])
    {
      tapIn := tapIn + [frame];
    }

    method MainSelects()
      requires Valid()
      modifies this`mainAt
      ensures Valid() && Snapshot() == MainSelect(old(Snapshot()))
    {
      if mainAt.AtSelect? {
        if tapIn != [] {
          mainAt := AtRead(Outbound);
        } else if pipeFrom != [] {
          mainAt := AtRead(Inbound);
        }
      }
    }

    method MainReads(outcome: int)
      requires Valid()
      modifies this`tapIn, this`taken, this`pipeFrom, this`mainAt, this`mainBytes, mainBuffer
      ensures Valid() && Snapshot() == MainRead(old(Snapshot()), outcome)
    {
      if mainAt == AtRead(Outbound) {
        ReadFromDevice(outcome);
      } else if mainAt == AtRead(Inbound) {
        ReadFromPipe(outcome);
      }
    }

    method ReadFromDevice(outcome: int)
      requires Valid() && mainAt == AtRead(Outbound)
      modifies this`tapIn, this`taken, this`mainAt, this`mainBytes, mainBuffer
      ensures Valid() && Snapshot() == MainRead(old(Snapshot()), outcome)
    {
      mainAt := AtSelect;
      if tapIn != [] {
        ghost var frame := tapIn[0];
        var nbytes, cutOff := Read(tapIn[0], mainBuffer, BLOCK_SIZE - 1, outcome);
        if nbytes > 0 {
          tapIn, taken := tapIn[1..], taken + frame[..nbytes];
          mainAt, mainBytes := AtWrite(Outbound), nbytes;
        }
      }
    }

    method ReadFromPipe(outcome: int)
      requires Valid() && mainAt == AtRead(Inbound)
      modifies this`pipeFrom, this`mainAt, this`mainBytes, mainBuffer
      ensures Valid() && Snapshot() == MainRead(old(Snapshot()), outcome)
    {
      mainAt := AtSelect;
      var nbytes;
      nbytes, pipeFrom := Read(pipeFrom, mainBuffer, BLOCK_SIZE, outcome);
      if nbytes > 0 {
        mainAt, mainBytes := AtWrite(Inbound), nbytes;
      }
    }

    method MainWrites(l: Limits, outcome: int)
      requires Valid()
      modifies this`pipeTo, this`delivered, this`deviceWrites, this`mainAt
      ensures Valid() && Snapshot() == MainWrite(l, old(Snapshot()), outcome)
      ensures old(mainAt) != AtWrite(Inbound) ==> deviceWrites == old(deviceWrites)
      ensures old(mainAt) == AtWrite(Inbound) ==>
                exists w :: deviceWrites == old(deviceWrites) + [w] && delivered == old(delivered) + w
    {
      if mainAt == AtWrite(Outbound) {
        WriteToPipe(l, outcome);
      } else if mainAt == AtWrite(Inbound) {
        WriteToDevice(l, outcome);
      }
    }

    method WriteToPipe(l: Limits, outcome: int)
      requires Valid() && mainAt == AtWrite(Outbound)
      modifies this`pipeTo, this`mainAt
      ensures Valid() && Snapshot() == MainWrite(l, old(Snapshot()), outcome)
    {
      if |pipeTo| + Moved(outcome, mainBytes) <= l.pipe {
        var nbytes;
        nbytes, pipeTo := Write(pipeTo, mainBuffer, mainBytes, outcome);
        assert mainBuffer[..mainBytes][..Moved(outcome, mainBytes)] == mainBuffer[..Moved(outcome, mainBytes)];
        mainAt := AtSelect;
      }
    }

    method WriteToDevice(l: Limits, outcome: int)
      requires Valid() && mainAt == AtWrite(Inbound)
      modifies this`delivered, this`deviceWrites, this`mainAt
      ensures Valid() && Snapshot() == MainWrite(l, old(Snapshot()), outcome)
      ensures deviceWrites == old(deviceWrites) + [mainBuffer[..Moved(outcome, mainBytes)]]
      ensures delivered == old(delivered) + mainBuffer[..Moved(outcome, mainBytes)]
    {
      var nbytes;
      nbytes, delivered := Write(delivered, mainBuffer, mainBytes, outcome);
      deviceWrites := deviceWrites + [mainBuffer[..Moved(outcome, mainBytes)]];
      assert mainBuffer[..mainBytes][..Moved(outcome, mainBytes)] == mainBuffer[..Moved(outcome, mainBytes)];
      mainAt := AtSelect;
    }

    method PluginSelects()
      requires Valid()
      modifies this`pluginAt
      ensures Valid() && Snapshot() == PluginSelect(old(Snapshot()))
    {
      if pluginAt.AtSelect? {
        if inbox != [] {
          pluginAt := AtRead(Inbound);
        } else if pipeTo != [] {
          pluginAt := AtRead(Outbound);
        }
      }
    }

    method PluginReads(outcome: int)
      requires Valid()
      modifies this`pipeTo, this`inbox, this`pluginAt, this`pluginBytes, pluginBuffer
      ensures Valid() && Snapshot() == PluginRead(old(Snapshot()), outcome)
    {
      if pluginAt == AtRead(Inbound) {
        pluginAt := AtSelect;
        var nBytes;
        nBytes, inbox := Read(inbox, pluginBuffer, BLOCK_SIZE - 1, outcome);
        if nBytes > 0 {
          pluginAt, pluginBytes := AtWrite(Inbound), nBytes;
        }
      } else if pluginAt == AtRead(Outbound) {
        pluginAt := AtSelect;
        var nBytes;
        nBytes, pipeTo := Read(pipeTo, pluginBuffer, BLOCK_SIZE - 1, outcome);
        if nBytes > 0 {
          pluginAt, pluginBytes := AtWrite(Outbound), nBytes;
        }
      }
    }

    method PluginWrites(l: Limits, outcome: int)
      requires Valid()
      modifies this`pipeFrom, this`wire, this`pluginAt
      ensures Valid() && Snapshot() == PluginWrite(l, old(Snapshot()), outcome)
    {
      if pluginAt == AtWrite(Inbound) {
        WriteFromPlugin(l, outcome);
      } else if pluginAt == AtWrite(Outbound) {
        Send(l, outcome);
      }
    }

    method WriteFromPlugin(l: Limits, outcome: int)
      requires Valid() && pluginAt == AtWrite(Inbound)
      modifies this`pipeFrom, this`pluginAt
      ensures Valid() && Snapshot() == PluginWrite(l, old(Snapshot()), outcome)
    {
      if |pipeFrom| + Moved(outcome, pluginBytes) <= l.pipe {
        var nBytes;
        nBytes, pipeFrom := Write(pipeFrom, pluginBuffer, pluginBytes, outcome);
        assert pluginBuffer[..pluginBytes][..Moved(outcome, pluginBytes)]
               == pluginBuffer[..Moved(outcome, pluginBytes)];
        pluginAt := AtSelect;
      }
    }

    method Send(l: Limits, outcome: int)
      requires Valid() && pluginAt == AtWrite(Outbound)
      modifies this`wire, this`pluginAt
      ensures Valid() && Snapshot() == PluginWrite(l, old(Snapshot()), outcome)
    {
      if |wire| + Moved(outcome, pluginBytes) <= l.wire {
        var nBytes;
        nBytes, wire := Write(wire, pluginBuffer, pluginBytes, outcome);
        assert pluginBuffer[..pluginBytes][..Moved(outcome, pluginBytes)]
               == pluginBuffer[..Moved(outcome, pluginBytes)];
        pluginAt := AtSelect;
      }
    }

    /** One pass of the while loop in MainLoop; blocked in its write, it resumes there.  With nothing
        at the device, all of the pipe up to 1505 bytes goes to the device in a single write. */
    method MainLoopBody(l: Limits, readOutcome: int, writeOutcome: int)
      requires Valid()
      modifies this, mainBuffer
      ensures Valid()
      ensures Snapshot() == MainPass(l, old(Snapshot()), readOutcome, writeOutcome)
      ensures old(mainAt.AtSelect? && tapIn == [] && pipeFrom != []) && readOutcome >= 1505 && writeOutcome >= 1505 ==>
                var p := old(pipeFrom);
                var k := if |p| <= 1505 then |p| else 1505;
                && delivered == old(delivered) + p[..k] && pipeFrom == p[k..] && mainAt.AtSelect?
                && deviceWrites == old(deviceWrites) + [p[..k]]
    {
      ghost var h, writes := Snapshot(), deviceWrites;
      if mainAt.AtSelect? && tapIn == [] && pipeFrom != [] {
        DeliveryPass(l, h, readOutcome, writeOutcome);
      }
      MainSelects();
      MainReads(readOutcome);
      ghost var read := Snapshot();
      MainWrites(l, writeOutcome);
      if h.main.Selecting? && h.tapIn == [] && h.pipeFrom != [] && readOutcome >= 1505 && writeOutcome >= 1505 {
        assert read.main.Writing? && read.main.branch.Inbound?;
        ghost var w :| deviceWrites == writes + [w] && delivered == h.delivered + w;
        SameRest(h.delivered, w, h.pipeFrom[..Min(1505, |h.pipeFrom|)]);
      }
    }

    /** One pass of the plugin's while loop.  Of a socket that holds more, 1504 bytes go to the pipe. */
    method PluginLoopBody(l: Limits, readOutcome: int, writeOutcome: int)
      requires Valid()
      modifies this, pluginBuffer
      ensures Valid()
      ensures Snapshot() == PluginPass(l, old(Snapshot()), readOutcome, writeOutcome)
      ensures old(pluginAt.AtSelect? && |inbox| > 1504) && readOutcome >= 1504 && writeOutcome >= 1504
              && |old(pipeFrom)| + 1504 <= l.pipe ==>
                && pipeFrom == old(pipeFrom) + old(inbox)[..1504] && inbox == old(inbox)[1504..]
                && pluginAt.AtSelect?
    {
      if pluginAt.AtSelect? && inbox != [] {
        SocketPass(l, Snapshot(), readOutcome, writeOutcome);
      }
      PluginSelects();
      PluginReads(readOutcome);
      PluginWrites(l, writeOutcome);
    }
  }

  lemma SameRest(x: seq<byte>, a: seq<byte>, b: seq<byte>)
    requires x + a == x + b
    ensures a == b
  {
    assert a == (x + a)[|x|..] && b == (x + b)[|x|..];
  }

  ghost predicate Apart(a: Machine, b: Machine)
    reads a, b
  {
    && a != b && a.Valid() && b.Valid()
    && {a.mainBuffer, a.pluginBuffer} !! {b.mainBuffer, b.pluginBuffer}
  }

  /** What the network does between the two sockets; not part of either program. */
  method NetworkCarries(l: Limits, me: Machine, peer: Machine, outcome: int)
    requires Apart(me, peer)
    modifies me`wire, peer`inbox
    ensures Apart(me, peer)
    ensures (me.Snapshot(), peer.Snapshot()) == Carry(l, old(me.Snapshot()), old(peer.Snapshot()), outcome)
  {
    var n := Moved(outcome, Min(|me.wire|, RoomLeft(l.inbox, |peer.inbox|)));
    peer.inbox := peer.inbox + me.wire[..n];
    me.wire := me.wire[n..];
  }

  /** One call of one host, or one step of the network. */
  method Perform(l: Limits, me: Machine, peer: Machine, action: Action)
    requires Apart(me, peer)
    modifies me, me.mainBuffer, me.pluginBuffer, peer`inbox
    ensures Apart(me, peer)
    ensures (me.Snapshot(), peer.Snapshot()) == Act(l, old(me.Snapshot()), old(peer.Snapshot()), action)
  {
    match action
    case FrameArrives(frame) => me.FrameArrives(frame);
    case MainSelects => me.MainSelects();
    case MainReads(outcome) => me.MainReads(outcome);
    case MainWrites(outcome) => me.MainWrites(l, outcome);
    case PluginSelects => me.PluginSelects();
    case PluginReads(outcome) => me.PluginReads(outcome);
    case PluginWrites(outcome) => me.PluginWrites(l, outcome);
    case NetworkCarries(outcome) => NetworkCarries(l, me, peer, outcome);
  }

  method PerformEvent(l: Limits, client: Machine, server: Machine, e: Event)
    requires Apart(client, server)
    modifies client, client.mainBuffer, client.pluginBuffer, server, server.mainBuffer, server.pluginBuffer
    ensures Apart(client, server)
    ensures State(client.Snapshot(), server.Snapshot()) == Step(l, old(State(client.Snapshot(), server.Snapshot())), e)
  {
    if e.side.Client? {
      Perform(l, client, server, e.action);
    } else {
      Perform(l, server, client, e.action);
    }
  }

  /** The four while (1) loops under any scheduler and any network. */
  method RunLoops(l: Limits, client: Machine, server: Machine, schedule: seq<Event>)
    requires Apart(client, server)
    modifies client, client.mainBuffer, client.pluginBuffer, server, server.mainBuffer, server.pluginBuffer
    ensures Apart(client, server)
    ensures State(client.Snapshot(), server.Snapshot())
            == Run(l, old(State(client.Snapshot(), server.Snapshot())), schedule)
  {
    ghost var start := State(client.Snapshot(), server.Snapshot());
    var i := 0;
    while i < |schedule|
      invariant i <= |schedule| && Apart(client, server)
      invariant State(client.Snapshot(), server.Snapshot()) == Run(l, start, schedule[..i])
    {
      PerformEvent(l, client, server, schedule[i]);
      RunNext(l, start, schedule, i);
      i := i + 1;
    }
    assert schedule[..i] == schedule;
  }

  lemma RunNext(l: Limits, s: State, run: seq<Event>, i: nat)
    requires i < |run|
    ensures Run(l, s, run[..i + 1]) == Step(l, Run(l, s, run[..i]), run[i])
  {
    assert run[..i + 1][..i] == run[..i];
  }

  /** Two fresh processes under any scheduler and any results of their calls: each device has been
      written a subsequence of what was read from the other, and with complete writes the two
      sides account for every byte.  They end where the transition system does, so that everything
      proved of its runs is true of theirs. */
  method Session(l: Limits, schedule: seq<Event>) returns (client: Machine, server: Machine)
    ensures Apart(client, server)
    ensures State(client.Snapshot(), server.Snapshot()) == Run(l, START, schedule)
    ensures Cells.Subsequence(server.delivered, client.taken) && Cells.Subsequence(client.delivered, server.taken)
    ensures TunnelRuns.CompleteWrites(schedule) ==>
              && Cells.Flat(Path(client.Snapshot(), server.Snapshot())) == client.taken
              && Cells.Flat(Path(server.Snapshot(), client.Snapshot())) == server.taken
  {
    client := new Machine();
    server := new Machine();
    RunLoops(l, client, server, schedule);
    TunnelRuns.DeliveredIsSubsequence(l, schedule, Client);
    TunnelRuns.DeliveredIsSubsequence(l, schedule, Server);
    TunnelRuns.Conservation(l, schedule, Client);
    TunnelRuns.Conservation(l, schedule, Server);
  }
}
