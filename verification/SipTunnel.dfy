/**
 One direction of a SIP tunnel over whole runs.  The network never has to deliver a request,
 and may deliver it any number of times and in any order, mixed with requests that carry no
 traffic.
 */
module SipTunnel {
  import opened Bits
  import opened Io
  import opened SipPlugin

  /** The sender's pipe, the chunks it has read and the requests it has sent; at the receiver,
      which sent requests arrived, what each made it write, and every reply. */
  datatype State = State(
    pipeToPlugin: seq<byte>, chunks: seq<seq<byte>>, network: seq<Request>,
    arrived: seq<nat>, written: seq<seq<byte>>, replies: seq<nat>)

  datatype Event =
    | PipeFills(data: seq<byte>)
    | SenderTurn(readOutcome: int)
    | Arrives(k: nat, writeOutcome: int)
    | Stray(req: Request)

  const START := State([], [], [], [], [], [])

  ghost predicate Sound(s: State) {
    Enclose(s.network, s.chunks)
  }

  ghost predicate Possible(e: Event) {
    e.Stray? ==> !e.req.CarriesTraffic()
  }

  /** sip_loop_tun_events */
  ghost function Send(s: State, readOutcome: int): (s': State)
    requires Sound(s)
    ensures Sound(s')
  {
    var n := Moved(readOutcome, Min(BLOCK_SIZE - 1, |s.pipeToPlugin|));
    if n == 0 then s else
      var chunk := s.pipeToPlugin[..n];
      s.(pipeToPlugin := s.pipeToPlugin[n..], chunks := s.chunks + [chunk], network := s.network + [Envelope(chunk)])
  }

  /** on_rx_request */
  ghost function Receive(s: State, k: nat, writeOutcome: int): (s': State)
    requires Sound(s) && k < |s.network|
    ensures s'.pipeToPlugin == s.pipeToPlugin && s'.chunks == s.chunks && s'.network == s.network
  {
    PathIsExact(s.chunks[k]);
    var chunk := Opened(s.network[k]);
    s.(arrived := s.arrived + [k], written := s.written + [chunk[..Moved(writeOutcome, |chunk|)]],
       replies := s.replies + [ACCEPTED])
  }

  ghost function Step(s: State, e: Event): (s': State)
    requires Sound(s) && Possible(e)
    ensures Sound(s')
  {
    match e
    case PipeFills(data) => s.(pipeToPlugin := s.pipeToPlugin + data)
    case SenderTurn(readOutcome) => Send(s, readOutcome)
    case Arrives(k, writeOutcome) => if k < |s.network| then Receive(s, k, writeOutcome) else s
    case Stray(req) => s.(replies := s.replies + [REFUSED])
  }

  ghost predicate PossibleRun(run: seq<Event>) {
    forall i :: 0 <= i < |run| ==> Possible(run[i])
  }

  /** The state after a run, from the start. */
  ghost function After(run: seq<Event>): (s: State)
    requires PossibleRun(run)
    ensures Sound(s)
  {
    if run == [] then START else Step(After(run[..|run| - 1]), run[|run| - 1])
  }

  /** Everything that was ever put into the sender's pipe. */
  function Input(run: seq<Event>): seq<byte> {
    if run == [] then []
    else
      var e := run[|run| - 1];
      Input(run[..|run| - 1]) + (if e.PipeFills? then e.data else [])
  }

  /** No write to the receiver's pipe failed or was cut short. */
  ghost predicate CompleteWrites(run: seq<Event>) {
    forall i :: 0 <= i < |run| && run[i].Arrives? ==> run[i].writeOutcome >= BLOCK_SIZE - 1
  }

  function CountAccepted(replies: seq<nat>): nat {
    if replies == [] then 0
    else CountAccepted(replies[..|replies| - 1]) + (if replies[|replies| - 1] == ACCEPTED then 1 else 0)
  }

  // ---- what every run keeps ----

  ghost predicate SenderInvariant(s: State, input: seq<byte>) {
    Sound(s) && input == Flatten(s.chunks) + s.pipeToPlugin
  }

  /** What the arrivals have made the receiver write. */
  ghost predicate Matches(chunks: seq<seq<byte>>, arrived: seq<nat>, written: seq<seq<byte>>, complete: bool) {
    && |written| == |arrived|
    && (forall i :: 0 <= i < |arrived| ==> arrived[i] < |chunks| && written[i] <= chunks[arrived[i]])
    && (complete ==> forall i :: 0 <= i < |arrived| ==> written[i] == chunks[arrived[i]])
  }

  ghost predicate ReceiverInvariant(s: State, complete: bool) {
    Matches(s.chunks, s.arrived, s.written, complete) && CountAccepted(s.replies) == |s.written|
  }

  lemma SendKeeps(s: State, readOutcome: int, input: seq<byte>)
    requires SenderInvariant(s, input)
    ensures SenderInvariant(Send(s, readOutcome), input)
  {
    MoveChunk(s.chunks, s.pipeToPlugin, Moved(readOutcome, Min(BLOCK_SIZE - 1, |s.pipeToPlugin|)));
  }

  lemma FillKeeps(s: State, data: seq<byte>, input: seq<byte>)
    requires SenderInvariant(s, input)
    ensures SenderInvariant(s.(pipeToPlugin := s.pipeToPlugin + data), input + data)
  {
    Assoc(Flatten(s.chunks), s.pipeToPlugin, data);
  }

  lemma SenderStep(s: State, e: Event, input: seq<byte>)
    requires Possible(e) && SenderInvariant(s, input)
    ensures SenderInvariant(Step(s, e), input + (if e.PipeFills? then e.data else []))
  {
    assert input + [] == input;
    if e.PipeFills? {
      FillKeeps(s, e.data, input);
    } else if e.SenderTurn? {
      SendKeeps(s, e.readOutcome, input);
    }
  }

  /** The sender's bytes are never lost on its side, and each request encloses one chunk. */
  lemma {:induction false} SenderKeeps(run: seq<Event>)
    requires PossibleRun(run)
    ensures SenderInvariant(After(run), Input(run))
  {
    if run != [] {
      SenderKeeps(run[..|run| - 1]);
      SenderStep(After(run[..|run| - 1]), run[|run| - 1], Input(run[..|run| - 1]));
    }
  }

  lemma WholeChunk(c: seq<byte>, outcome: int)
    ensures c[..Moved(outcome, |c|)] <= c
    ensures outcome >= |c| ==> c[..Moved(outcome, |c|)] == c
  {
  }

  /** An arrival makes the receiver write the front of the chunk enclosed. */
  lemma WrittenByArrival(s: State, k: nat, writeOutcome: int) returns (w: seq<byte>)
    requires Sound(s) && k < |s.network|
    ensures Receive(s, k, writeOutcome)
            == s.(arrived := s.arrived + [k], written := s.written + [w], replies := s.replies + [ACCEPTED])
    ensures w <= s.chunks[k] && (writeOutcome >= BLOCK_SIZE - 1 ==> w == s.chunks[k])
  {
    var c := s.chunks[k];
    w := c[..Moved(writeOutcome, |c|)];
    assert Opened(s.network[k]) == c by { PathIsExact(c); }
    WholeChunk(c, writeOutcome);
  }

  lemma MatchesSnoc(chunks: seq<seq<byte>>, arrived: seq<nat>, written: seq<seq<byte>>,
                    k: nat, w: seq<byte>, complete: bool)
    requires Matches(chunks, arrived, written, complete)
    requires k < |chunks| && w <= chunks[k] && (complete ==> w == chunks[k])
    ensures Matches(chunks, arrived + [k], written + [w], complete)
  {
  }

  lemma CountSnoc(replies: seq<nat>, code: nat)
    ensures CountAccepted(replies + [code]) == CountAccepted(replies) + if code == ACCEPTED then 1 else 0
  {
    assert (replies + [code])[..|replies|] == replies;
  }

  lemma ReceiveKeeps(s: State, k: nat, writeOutcome: int, complete: bool)
    requires Sound(s) && k < |s.network| && ReceiverInvariant(s, complete)
    requires complete ==> writeOutcome >= BLOCK_SIZE - 1
    ensures ReceiverInvariant(Receive(s, k, writeOutcome), complete)
  {
    var w := WrittenByArrival(s, k, writeOutcome);
    MatchesSnoc(s.chunks, s.arrived, s.written, k, w, complete);
    CountSnoc(s.replies, ACCEPTED);
  }

  lemma ReceiverStep(s: State, e: Event, complete: bool)
    requires Sound(s) && Possible(e) && ReceiverInvariant(s, complete)
    requires complete && e.Arrives? ==> e.writeOutcome >= BLOCK_SIZE - 1
    ensures ReceiverInvariant(Step(s, e), complete)
  {
    if e.Arrives? {
      if e.k < |s.network| { ReceiveKeeps(s, e.k, e.writeOutcome, complete); }
    } else if e.Stray? {
      CountSnoc(s.replies, REFUSED);
    }
  }

  /** Every chunk written is the front of some chunk read, all of it when the write was complete,
      and there is one reply 666 for each; no matter what the network did. */
  lemma {:induction false} ReceiverKeeps(run: seq<Event>, complete: bool)
    requires PossibleRun(run) && (complete ==> CompleteWrites(run))
    ensures ReceiverInvariant(After(run), complete)
  {
    if run != [] {
      ReceiverKeeps(run[..|run| - 1], complete);
      ReceiverStep(After(run[..|run| - 1]), run[|run| - 1], complete);
    }
  }

  /** The network delivered the first m requests, once each and in order. */
  ghost predicate InOrder(arrived: seq<nat>) {
    forall i :: 0 <= i < |arrived| ==> arrived[i] == i
  }

  /** On an orderly network the receiver's pipe holds a prefix of what entered the sender's pipe,
      and all of it once nothing is left behind. */
  lemma OrderlyRun(run: seq<Event>)
    requires PossibleRun(run) && CompleteWrites(run) && InOrder(After(run).arrived)
    ensures Flatten(After(run).written) <= Input(run)
    ensures |After(run).arrived| == |After(run).chunks| && After(run).pipeToPlugin == []
            ==> Flatten(After(run).written) == Input(run)
  {
    SenderKeeps(run);
    ReceiverKeeps(run, true);
    OrderlyState(After(run), Input(run));
  }

  lemma OrderlyState(s: State, input: seq<byte>)
    requires |s.written| == |s.arrived| && InOrder(s.arrived)
    requires forall i :: 0 <= i < |s.arrived| ==> s.arrived[i] < |s.chunks| && s.written[i] == s.chunks[s.arrived[i]]
    requires input == Flatten(s.chunks) + s.pipeToPlugin
    ensures Flatten(s.written) <= input
    ensures |s.arrived| == |s.chunks| && s.pipeToPlugin == [] ==> Flatten(s.written) == input
  {
    if s.arrived != [] {
      assert s.arrived[|s.arrived| - 1] < |s.chunks|;
    }
    assert s.written == s.chunks[..|s.arrived|];
    FlattenPrefix(s.written, s.chunks);
    assert |s.arrived| == |s.chunks| ==> s.written == s.chunks;
  }

  // ---- duplicates ----

  /** The receiver does not notice duplicates: every arrival of a request, the first or a later
      one, appends its chunk. */
  lemma EveryArrivalAppends(run: seq<Event>, k: nat, writeOutcome: int)
    requires PossibleRun(run) && writeOutcome >= BLOCK_SIZE - 1 && k < |After(run).network|
    ensures k < |After(run).chunks| && PossibleRun(run + [Arrives(k, writeOutcome)])
    ensures After(run + [Arrives(k, writeOutcome)]).written == After(run).written + [After(run).chunks[k]]
  {
    var e := Arrives(k, writeOutcome);
    assert (run + [e])[..|run|] == run;
    var w := WrittenByArrival(After(run), k, writeOutcome);
  }

  /** So one retransmission after everything has arrived leaves the receiver's pipe with bytes
      that never entered the sender's. */
  lemma RetransmissionAddsBytes(run: seq<Event>, k: nat, writeOutcome: int)
    requires PossibleRun(run) && writeOutcome >= BLOCK_SIZE - 1
    requires k < |After(run).network| && Flatten(After(run).written) == Input(run)
    ensures var run' := run + [Arrives(k, writeOutcome)];
            && PossibleRun(run') && Input(run') == Input(run)
            && |Flatten(After(run').written)| > |Input(run')|
  {
    EveryArrivalAppends(run, k, writeOutcome);
    SenderKeeps(run);
    FlattenSnoc(After(run).written, After(run).chunks[k]);
    assert (run + [Arrives(k, writeOutcome)])[..|run|] == run;
  }
}
