/**
 Is the order of the requests necessary for a faithful stream?  For the list of chunks it is as
 soon as the chunks differ; for the bytes in the pipe, which have no boundaries, it is exactly
 if no chunk is the front of another one.
 */
module SipOrder {
  import opened Bits
  import opened Io
  import opened SipTunnel

  ghost predicate InRange(chunks: seq<seq<byte>>, ks: seq<nat>) {
    forall i :: 0 <= i < |ks| ==> ks[i] < |chunks|
  }

  /** What complete writes leave in the pipe when the requests arrive as listed. */
  function Picked(chunks: seq<seq<byte>>, ks: seq<nat>): (written: seq<seq<byte>>)
    requires InRange(chunks, ks)
    ensures |written| == |ks| && forall i :: 0 <= i < |ks| ==> written[i] == chunks[ks[i]]
  {
    seq(|ks|, i requires 0 <= i < |ks| => chunks[ks[i]])
  }

  predicate FrontOf(a: seq<byte>, b: seq<byte>) {
    a <= b
  }

  /** No chunk is the front of another one; chunks of equal length that all differ are an example. */
  ghost predicate PrefixFree(chunks: seq<seq<byte>>) {
    forall i, j :: 0 <= i < |chunks| && 0 <= j < |chunks| && FrontOf(chunks[i], chunks[j]) ==> i == j
  }

  lemma EqualLengths(chunks: seq<seq<byte>>, n: nat)
    requires forall i :: 0 <= i < |chunks| ==> |chunks[i]| == n
    ensures PrefixFree(chunks) <==> forall i, j :: 0 <= i < j < |chunks| ==> chunks[i] != chunks[j]
  {
  }

  lemma Comparable(x: seq<byte>, a: seq<byte>, b: seq<byte>, z: seq<byte>)
    requires x + a <= z && x + b <= z
    ensures a <= b || b <= a
  {
    assert a == z[|x|..|x| + |a|] && b == z[|x|..|x| + |b|];
  }

  lemma TakeNext(chunks: seq<seq<byte>>, n: nat)
    requires n < |chunks|
    ensures chunks[..n + 1] == chunks[..n] + [chunks[n]] && chunks[..n + 1] <= chunks
  {
  }

  lemma FlattenNext(chunks: seq<seq<byte>>, n: nat)
    requires n < |chunks|
    ensures Flatten(chunks[..n]) + chunks[n] <= Flatten(chunks)
  {
    TakeNext(chunks, n);
    FlattenSnoc(chunks[..n], chunks[n]);
    FlattenPrefix(chunks[..n + 1], chunks);
  }

  lemma NotLonger(x: seq<byte>, w: seq<byte>)
    requires w != []
    ensures !(x + w <= x)
  {
  }

  /** After the first n chunks the stream goes on with chunk n. */
  lemma NextShows(chunks: seq<seq<byte>>, n: nat, w: seq<byte>)
    requires n <= |chunks| && w != []
    requires Flatten(chunks[..n]) + w <= Flatten(chunks)
    ensures n < |chunks| && (FrontOf(w, chunks[n]) || FrontOf(chunks[n], w))
  {
    if n < |chunks| {
      FlattenNext(chunks, n);
      Comparable(Flatten(chunks[..n]), w, chunks[n], Flatten(chunks));
    } else {
      NotLonger(Flatten(chunks), w);
      TakeAll(chunks);
    }
  }

  lemma TakeAll(chunks: seq<seq<byte>>)
    ensures chunks[..|chunks|] == chunks
  {
  }

  lemma PickedFront(chunks: seq<seq<byte>>, ks: seq<nat>, n: nat)
    requires InRange(chunks, ks) && n <= |ks| && InOrder(ks[..n])
    ensures n <= |chunks| && Picked(chunks, ks)[..n] == chunks[..n]
  {
    assert forall i :: 0 <= i < n ==> ks[..n][i] == ks[i];
    if n > 0 {
      assert ks[n - 1] < |chunks|;
    }
  }

  lemma InOrderNext(ks: seq<nat>, n: nat)
    requires n < |ks| && InOrder(ks[..n]) && ks[n] == n
    ensures InOrder(ks[..n + 1])
  {
    assert ks[..n + 1] == ks[..n] + [n];
  }

  /** If the first n arrivals were in order, so was the next. */
  lemma NextInOrder(chunks: seq<seq<byte>>, ks: seq<nat>, n: nat)
    requires PrefixFree(chunks) && InRange(chunks, ks) && n < |ks| && chunks[ks[n]] != []
    requires Flatten(Picked(chunks, ks)) <= Flatten(chunks) && InOrder(ks[..n])
    ensures InOrder(ks[..n + 1])
  {
    PickedFront(chunks, ks, n);
    FlattenNext(Picked(chunks, ks), n);
    NextShows(chunks, n, chunks[ks[n]]);
    InOrderNext(ks, n);
  }

  lemma {:induction false} StreamShowsOrder(chunks: seq<seq<byte>>, ks: seq<nat>, n: nat)
    requires PrefixFree(chunks) && (forall k :: 0 <= k < |chunks| ==> chunks[k] != [])
    requires InRange(chunks, ks) && Flatten(Picked(chunks, ks)) <= Flatten(chunks) && n <= |ks|
    ensures InOrder(ks[..n])
  {
    if n > 0 {
      StreamShowsOrder(chunks, ks, n - 1);
      NextInOrder(chunks, ks, n - 1);
    }
  }

  /** In any list of arrivals the stream shows every departure from the order, if no chunk is the
      front of another one. */
  lemma StreamOrder(chunks: seq<seq<byte>>, ks: seq<nat>)
    requires PrefixFree(chunks) && (forall k :: 0 <= k < |chunks| ==> chunks[k] != []) && InRange(chunks, ks)
    ensures Flatten(Picked(chunks, ks)) <= Flatten(chunks) <==> InOrder(ks)
  {
    assert ks[..|ks|] == ks;
    if Flatten(Picked(chunks, ks)) <= Flatten(chunks) {
      StreamShowsOrder(chunks, ks, |ks|);
    }
    if InOrder(ks) {
      OrderGivesPrefix(chunks, ks);
    }
  }

  lemma OrderGivesPrefix(chunks: seq<seq<byte>>, ks: seq<nat>)
    requires InRange(chunks, ks) && InOrder(ks)
    ensures Flatten(Picked(chunks, ks)) <= Flatten(chunks)
  {
    var n := |ks|;
    assert ks[..n] == ks && Picked(chunks, ks)[..n] == Picked(chunks, ks);
    PickedFront(chunks, ks, n);
    FlattenPrefix(chunks[..n], chunks);
  }

  /** A chunk that is the front of another one can take its place unnoticed. */
  lemma Unnoticed(chunks: seq<seq<byte>>, i: nat, j: nat) returns (ks: seq<nat>)
    requires i < |chunks| && j < |chunks| && i != j && chunks[j] <= chunks[i]
    ensures InRange(chunks, ks) && Flatten(Picked(chunks, ks)) <= Flatten(chunks) && !InOrder(ks)
  {
    ks := seq(i, m => m) + [j];
    assert ks[i] == j;
    assert Picked(chunks, ks) == chunks[..i] + [chunks[j]];
    FlattenSnoc(chunks[..i], chunks[j]);
    FlattenNext(chunks, i);
    PrefixUnder(Flatten(chunks[..i]), chunks[j], chunks[i], Flatten(chunks));
  }

  lemma PrefixUnder(x: seq<byte>, a: seq<byte>, b: seq<byte>, z: seq<byte>)
    requires a <= b && x + b <= z
    ensures x + a <= z
  {
    assert b[..|a|] == a;
  }

  /** With complete writes, the receiver's stream is a prefix of what was sent exactly if the requests
      arrived once each and in order; provided that no chunk is the front of another one. */
  lemma OrderMatters(run: seq<Event>)
    requires PossibleRun(run) && CompleteWrites(run) && PrefixFree(After(run).chunks)
    ensures Flatten(After(run).written) <= Flatten(After(run).chunks) <==> InOrder(After(run).arrived)
  {
    var s := After(run);
    ReceiverKeeps(run, true);
    assert s.written == Picked(s.chunks, s.arrived);
    StreamOrder(s.chunks, s.arrived);
  }

  /** The network delivers these requests, and the writes are complete. */
  function Deliveries(ks: seq<nat>): seq<Event> {
    if ks == [] then [] else Deliveries(ks[..|ks| - 1]) + [Arrives(ks[|ks| - 1], BLOCK_SIZE)]
  }

  lemma PickedSnoc(chunks: seq<seq<byte>>, ks: seq<nat>, k: nat)
    requires InRange(chunks, ks) && k < |chunks|
    ensures InRange(chunks, ks + [k]) && Picked(chunks, ks + [k]) == Picked(chunks, ks) + [chunks[k]]
  {
  }

  /** After the listed arrivals the receiver has written the chunks picked, and nothing was sent. */
  ghost predicate Wrote(s: State, t: State, ks: seq<nat>)
    requires InRange(s.chunks, ks)
  {
    t.chunks == s.chunks && t.network == s.network && t.written == s.written + Picked(s.chunks, ks)
  }

  lemma WroteNext(s: State, t: State, u: State, ks: seq<nat>, k: nat)
    requires InRange(s.chunks, ks) && Wrote(s, t, ks) && k < |s.chunks|
    requires u.chunks == t.chunks && u.network == t.network && u.written == t.written + [t.chunks[k]]
    ensures InRange(s.chunks, ks + [k]) && Wrote(s, u, ks + [k])
  {
    PickedSnoc(s.chunks, ks, k);
    Regroup(s.written, Picked(s.chunks, ks), [s.chunks[k]]);
  }

  lemma DeliveriesSnoc(ks: seq<nat>, k: nat)
    ensures Deliveries(ks + [k]) == Deliveries(ks) + [Arrives(k, BLOCK_SIZE)]
  {
    assert (ks + [k])[..|ks|] == ks;
  }

  lemma {:induction false} DeliveriesWrite(run: seq<Event>, ks: seq<nat>)
    requires PossibleRun(run) && InRange(After(run).chunks, ks)
    ensures PossibleRun(run + Deliveries(ks)) && Wrote(After(run), After(run + Deliveries(ks)), ks)
  {
    if ks == [] {
      assert run + [] == run && After(run).written + [] == After(run).written;
    } else {
      var before, k := ks[..|ks| - 1], ks[|ks| - 1];
      assert ks == before + [k];
      DeliveriesWrite(run, before);
      DeliveriesSnoc(before, k);
      OneMore(run, Deliveries(before), k);
      WroteNext(After(run), After(run + Deliveries(before)), After(run + Deliveries(ks)), before, k);
    }
  }

  lemma Regroup(a: seq<seq<byte>>, b: seq<seq<byte>>, c: seq<seq<byte>>)
    ensures (a + b) + c == a + (b + c)
  {
  }

  lemma OneMore(run: seq<Event>, more: seq<Event>, k: nat)
    requires PossibleRun(run + more) && k < |After(run + more).chunks|
    ensures var t := run + (more + [Arrives(k, BLOCK_SIZE)]);
            && PossibleRun(t)
            && After(t).chunks == After(run + more).chunks && After(t).network == After(run + more).network
            && After(t).written == After(run + more).written + [After(run + more).chunks[k]]
  {
    var r := run + more;
    assert run + (more + [Arrives(k, BLOCK_SIZE)]) == r + [Arrives(k, BLOCK_SIZE)];
    EveryArrivalAppends(r, k, BLOCK_SIZE);
    assert (r + [Arrives(k, BLOCK_SIZE)])[..|r|] == r;
  }

  /** Requests arrive in the given order; is what this adds to the receiver's pipe a prefix of what
      was sent? */
  ghost predicate StreamIntact(run: seq<Event>, ks: seq<nat>)
    requires PossibleRun(run) && InRange(After(run).chunks, ks)
  {
    DeliveriesWrite(run, ks);
    Flatten(After(run + Deliveries(ks)).written) <= Flatten(After(run).chunks)
  }

  /** Whatever has been sent, the stream shows every departure from the order exactly if no chunk is
      the front of another one. */
  lemma OrderMattersExactly(run: seq<Event>)
    requires PossibleRun(run) && After(run).written == []
    ensures PrefixFree(After(run).chunks)
            <==> forall ks | InRange(After(run).chunks, ks) :: StreamIntact(run, ks) <==> InOrder(ks)
  {
    var chunks := After(run).chunks;
    forall ks | InRange(chunks, ks) ensures StreamIntact(run, ks) <==> Flatten(Picked(chunks, ks)) <= Flatten(chunks) {
      DeliveriesWrite(run, ks);
      assert [] + Picked(chunks, ks) == Picked(chunks, ks);
    }
    if PrefixFree(chunks) {
      forall ks | InRange(chunks, ks) ensures StreamIntact(run, ks) <==> InOrder(ks) {
        StreamOrder(chunks, ks);
      }
    } else {
      var i, j :| 0 <= i < |chunks| && 0 <= j < |chunks| && FrontOf(chunks[j], chunks[i]) && i != j;
      var ks := Unnoticed(chunks, i, j);
    }
  }

  lemma Fill(run: seq<Event>, data: seq<byte>)
    requires PossibleRun(run) && After(run).pipeToPlugin == []
    ensures var run' := run + [PipeFills(data)];
            PossibleRun(run') && Input(run') == Input(run) + data && After(run') == After(run).(pipeToPlugin := data)
  {
    assert (run + [PipeFills(data)])[..|run|] == run;
    assert [] + data == data;
  }

  lemma Turn(run: seq<Event>)
    requires PossibleRun(run) && 0 < |After(run).pipeToPlugin| <= BLOCK_SIZE - 1
    ensures var run', s := run + [SenderTurn(BLOCK_SIZE)], After(run);
            && PossibleRun(run') && Input(run') == Input(run)
            && After(run').pipeToPlugin == [] && After(run').chunks == s.chunks + [s.pipeToPlugin]
            && After(run').arrived == s.arrived && After(run').written == s.written
  {
    assert (run + [SenderTurn(BLOCK_SIZE)])[..|run|] == run;
    assert Input(run) + [] == Input(run);
    var pipe := After(run).pipeToPlugin;
    assert pipe[..|pipe|] == pipe;
  }

  lemma SendOne(run: seq<Event>, data: seq<byte>) returns (run': seq<Event>)
    requires PossibleRun(run) && After(run).pipeToPlugin == [] && 0 < |data| <= BLOCK_SIZE - 1
    ensures PossibleRun(run') && Input(run') == Input(run) + data
    ensures After(run').pipeToPlugin == [] && After(run').chunks == After(run).chunks + [data]
    ensures After(run').arrived == After(run).arrived && After(run').written == After(run).written
  {
    Fill(run, data);
    Turn(run + [PipeFills(data)]);
    run' := run + [PipeFills(data)] + [SenderTurn(BLOCK_SIZE)];
  }

  lemma OnesFlatten()
    ensures Flatten([] + [[1, 1]] + [[1]]) == [] + [1] + [1, 1]
  {
    FlattenSnoc([], [1, 1]);
    FlattenSnoc([] + [[1, 1]], [1]);
  }

  /** Different chunks are not enough: these two arrive in the wrong order and nobody can tell. */
  lemma LuckyOrder() returns (run: seq<Event>)
    ensures PossibleRun(run) && After(run).chunks == [[1], [1, 1]] && After(run).arrived == [1, 0]
    ensures Flatten(After(run).written) == Input(run)
  {
    run := SendOne([], [1]);
    run := SendOne(run, [1, 1]);
    assert After(run).chunks == [[1], [1, 1]];
    run := Arrival(run, 1);
    run := Arrival(run, 0);
    OnesFlatten();
    assert After(run).arrived == [1, 0];
  }

  lemma Arrival(run: seq<Event>, k: nat) returns (run': seq<Event>)
    requires PossibleRun(run) && k < |After(run).chunks|
    ensures PossibleRun(run') && Input(run') == Input(run)
    ensures var s, t := After(run), After(run');
            t.chunks == s.chunks && t.arrived == s.arrived + [k] && t.written == s.written + [s.chunks[k]]
  {
    run' := run + [Arrives(k, BLOCK_SIZE)];
    EveryArrivalAppends(run, k, BLOCK_SIZE);
    assert run'[..|run|] == run;
    assert Input(run) + [] == Input(run);
  }
}
