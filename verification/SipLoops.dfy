/**
 The code of the two processes over whole runs: sip_loop_tun_events at the sender and
 on_rx_request at the receiver do what the step model of the tunnel says.
 */
module SipLoops {
  import opened Io
  import opened SipPlugin
  import opened SipTunnel

  /** The two processes are where the model is. */
  ghost predicate Mirrors(a: Endpoint, b: Endpoint, s: State)
    reads a, b
  {
    && a.pipeToPlugin == s.pipeToPlugin && a.requests == s.network
    && b.pipeFromPlugin == Flatten(s.written) && b.replies == s.replies
  }

  ghost predicate Apart(a: Endpoint, b: Endpoint)
    reads a, a.decoder, a.decoder.decodingTable, b, b.decoder, b.decoder.decodingTable
  {
    a != b && a.decoder != b.decoder && a.Valid() && b.Valid()
  }

  /** A request that was sent arrives: the code writes the front of its chunk and replies. */
  method Deliver(a: Endpoint, b: Endpoint, k: nat, writeOutcome: int, ghost s: State)
    requires Apart(a, b) && Sound(s) && Mirrors(a, b, s) && k < |a.requests|
    modifies b, b.decoder
    ensures Apart(a, b) && Mirrors(a, b, Receive(s, k, writeOutcome))
  {
    PathIsExact(s.chunks[k]);
    ghost var chunk := Opened(s.network[k]);
    FlattenSnoc(s.written, chunk[..Moved(writeOutcome, |chunk|)]);
    b.OnRxRequest(a.requests[k], writeOutcome);
  }

  method Perform(a: Endpoint, b: Endpoint, e: Event, ghost s: State)
    requires Apart(a, b) && Sound(s) && Possible(e) && Mirrors(a, b, s)
    modifies a, a.buffer, b, b.decoder
    ensures Apart(a, b) && Mirrors(a, b, Step(s, e))
  {
    match e {
      case PipeFills(data) =>
        a.pipeToPlugin := a.pipeToPlugin + data;
      case SenderTurn(readOutcome) =>
        a.LoopTunEvents(readOutcome);
      case Arrives(k, writeOutcome) =>
        if k < |a.requests| {
          Deliver(a, b, k, writeOutcome, s);
        }
      case Stray(req) =>
        b.OnRxRequest(req, 0);
    }
  }

  /** The sender's loop and the receiver's callback under any network. */
  method RunTunnel(a: Endpoint, b: Endpoint, run: seq<Event>)
    requires Apart(a, b) && PossibleRun(run) && Mirrors(a, b, START)
    modifies a, a.buffer, b, b.decoder
    ensures Apart(a, b) && Mirrors(a, b, After(run))
  {
    var i := 0;
    assert run[..0] == [];
    while i < |run|
      invariant i <= |run| && Apart(a, b) && Mirrors(a, b, After(run[..i]))
    {
      assert run[..i + 1][..i] == run[..i];
      Perform(a, b, run[i], After(run[..i]));
      i := i + 1;
    }
    assert run[..i] == run;
  }

  /** Two fresh processes: each 666 stands for one chunk written, and on an orderly network without
      failing writes the receiver's pipe holds a prefix of what entered the sender's. */
  method Session(run: seq<Event>) returns (a: Endpoint, b: Endpoint)
    requires PossibleRun(run)
    ensures Mirrors(a, b, After(run)) && CountAccepted(b.replies) == |After(run).arrived|
    ensures CompleteWrites(run) && InOrder(After(run).arrived) ==> b.pipeFromPlugin <= Input(run)
  {
    a := new Endpoint();
    b := new Endpoint();
    RunTunnel(a, b, run);
    ReceiverKeeps(run, false);
    if CompleteWrites(run) && InOrder(After(run).arrived) {
      OrderlyRun(run);
    }
  }
}
