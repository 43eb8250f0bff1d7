/**
 What the forwarding code sees of the operating system: a read hands over some front part of
 what is waiting, a write accepts some front part of what it is given, and both can fail.
 The outcome of a call is a parameter; zero or less is a failure, as in the source's tests.
 */
module Io {
  import opened Bits

  const BLOCK_SIZE: nat := 1505

  function Min(a: nat, b: nat): (m: nat)
    ensures m <= a && m <= b && (m == a || m == b)
  {
    if a <= b then a else b
  }

  /** How many bytes a call with this outcome moves when at most limit can move. */
  function Moved(outcome: int, limit: nat): (n: nat)
    ensures outcome <= 0 ==> n == 0
    ensures 0 < outcome <= limit ==> n == outcome
    ensures outcome >= limit ==> n == limit
  {
    if outcome <= 0 then 0 else Min(outcome, limit)
  }

  /** All chunks of a log, one after the other. */
  function Flatten(chunks: seq<seq<byte>>): seq<byte> {
    if chunks == [] then [] else Flatten(chunks[..|chunks| - 1]) + chunks[|chunks| - 1]
  }

  lemma FlattenSnoc(chunks: seq<seq<byte>>, c: seq<byte>)
    ensures Flatten(chunks + [c]) == Flatten(chunks) + c
  {
    assert (chunks + [c])[..|chunks|] == chunks;
  }

  lemma Assoc(a: seq<byte>, b: seq<byte>, c: seq<byte>)
    ensures (a + b) + c == a + (b + c)
  {
  }

  /** Moving the front of a queue to the end of a log of chunks. */
  lemma MoveChunk(chunks: seq<seq<byte>>, queue: seq<byte>, n: nat)
    requires n <= |queue|
    ensures Flatten(chunks + [queue[..n]]) + queue[n..] == Flatten(chunks) + queue
  {
    FlattenSnoc(chunks, queue[..n]);
    Assoc(Flatten(chunks), queue[..n], queue[n..]);
    assert queue[..n] + queue[n..] == queue;
  }

  lemma {:induction false} FlattenPrefix(a: seq<seq<byte>>, b: seq<seq<byte>>)
    requires a <= b
    ensures Flatten(a) <= Flatten(b)
  {
    if |a| < |b| {
      var b' := b[..|b| - 1];
      assert a <= b';
      FlattenPrefix(a, b');
    } else {
      assert a == b;
    }
  }

  /** read(fd, buffer, limit): the buffer's front is overwritten, the rest of it keeps stale data.  A
      read returns as many bytes as its outcome says, but no more than wait or than it asked for. */
  method Read(waiting: seq<byte>, buffer: array<byte>, limit: nat, outcome: int) returns (nBytes: int, rest: seq<byte>)
    requires limit <= buffer.Length
    modifies buffer
    ensures outcome <= 0 || limit == 0 || waiting == [] ==> nBytes <= 0
    ensures 0 < outcome <= limit && outcome <= |waiting| ==> nBytes == outcome
    ensures outcome > |waiting| && 0 < |waiting| <= limit ==> nBytes == |waiting|
    ensures outcome > limit && |waiting| >= limit > 0 ==> nBytes == limit
    ensures nBytes <= 0 <==> Moved(outcome, Min(limit, |waiting|)) == 0
    ensures nBytes <= 0 ==> rest == waiting
    ensures nBytes > 0 ==> nBytes == Moved(outcome, Min(limit, |waiting|))
    ensures nBytes > 0 ==> buffer[..nBytes] == waiting[..nBytes] && rest == waiting[nBytes..]
  {
    var n := Moved(outcome, Min(limit, |waiting|));
    if n == 0 {
      nBytes, rest := if outcome <= 0 then outcome else 0, waiting;
    } else {
      var i := 0;
      while i < n
        invariant i <= n && buffer[..i] == waiting[..i]
      {
        buffer[i] := waiting[i];
        i := i + 1;
      }
      nBytes, rest := n, waiting[n..];
    }
  }

  /** write(fd, buffer, n): what of the buffer's first n bytes arrives at the other end is what the
      outcome says was accepted. */
  method Write(queue: seq<byte>, buffer: array<byte>, n: nat, outcome: int) returns (nBytes: int, queue': seq<byte>)
    requires n <= buffer.Length
    ensures outcome <= 0 ==> nBytes <= 0 && queue' == queue
    ensures 0 < outcome <= n ==> nBytes == outcome && queue' == queue + buffer[..outcome]
    ensures outcome > n ==> nBytes == n && queue' == queue + buffer[..n]
    ensures queue' == queue + buffer[..Moved(outcome, n)]
  {
    nBytes := if outcome <= 0 then outcome else Moved(outcome, n);
    queue' := queue + buffer[..Moved(outcome, n)];
  }
}
