/**
 sip_plugin.c: a chunk read from the pipe travels base64-encoded in the Multivpn header of an
 OPTIONS request; the receiver copies the header into a zeroed buffer, measures it with
 strlen, decodes it and writes the result to its own pipe.
 */
module SipPlugin {
  import opened Bits
  import opened CStrings
  import opened Io
  import opened Options
  import Base64
  import Spec = Base64Spec

  const PAYLOAD_SIZE: nat := 2048
  const REFUSED: nat := 500
  const ACCEPTED: nat := 666

  /** What on_rx_request looks at: whether the method is OPTIONS, and the Multivpn header. */
  datatype Request = Request(isOptions: bool, multivpn: Option<string>) {
    predicate CarriesTraffic() {
      isOptions && multivpn.Some?
    }
  }

  /** The request that sip_envia_datos sends for a chunk. */
  ghost function Envelope(chunk: seq<byte>): Request {
    Request(true, Some(Spec.Encode(chunk)))
  }

  /** Requests sent, each for the chunk that was read for it. */
  ghost predicate Enclose(requests: seq<Request>, chunks: seq<seq<byte>>) {
    && |requests| == |chunks|
    && forall k :: 0 <= k < |chunks| ==> 0 < |chunks[k]| <= BLOCK_SIZE - 1 && requests[k] == Envelope(chunks[k])
  }

  /** The C string that the receiver's buffer holds after memset and strncpy. */
  function Payload(header: string): string
    requires |header| <= PAYLOAD_SIZE
  {
    CStr(Strncpied(Nuls(PAYLOAD_SIZE), header, |header|))
  }

  /** Requests on which on_rx_request stays within its buffer and within the decoder's domain. */
  ghost predicate Receivable(req: Request) {
    req.CarriesTraffic() ==>
      && |req.multivpn.value| < PAYLOAD_SIZE
      && Spec.Decodable(Payload(req.multivpn.value))
  }

  /** The bytes on_rx_request hands to the pipe, if it gets that far. */
  ghost function Opened(req: Request): (chunk: seq<byte>)
    requires Receivable(req) && req.CarriesTraffic()
  {
    Spec.Decode(Payload(req.multivpn.value))
  }

  /** The header comes through the buffer unchanged exactly when it holds no NUL. */
  lemma PayloadIsHeader(header: string)
    requires |header| < 2048
    ensures Payload(header) == header <==> NUL !in header
  {
    StrncpiedReads(Nuls(PAYLOAD_SIZE), header, |header|);
    CStrWhole(header);
  }

  lemma EncodingHasNoNul(d: seq<byte>)
    ensures NUL !in Spec.Encode(d)
  {
    Spec.EncodeShape(d);
  }

  /** The encoding of a chunk leaves room for the terminator up to 1533 bytes; the plugin never
      reads more than BLOCK_SIZE - 1 of them. */
  lemma ChunkFits(n: nat)
    ensures Spec.EncodedLength(n) < PAYLOAD_SIZE == 2048 <==> n <= 1533
    ensures Spec.EncodedLength(BLOCK_SIZE - 1) == Spec.EncodedLength(1504) == 2008
  {
  }

  /** Every chunk the plugin can read comes out of the receiver byte for byte. */
  lemma PathIsExact(chunk: seq<byte>)
    requires 0 < |chunk| <= 1504
    ensures Receivable(Envelope(chunk)) && Envelope(chunk).CarriesTraffic()
    ensures Opened(Envelope(chunk)) == chunk
  {
    var header := Spec.Encode(chunk);
    ChunkFits(|chunk|);
    Spec.EncodeShape(chunk);
    EncodingHasNoNul(chunk);
    PayloadIsHeader(header);
    Spec.DecodeEncode(chunk);
  }

  /** One process running the plugin: its two pipes, what it has sent and what it has answered. */
  class Endpoint {
    const decoder: Base64.Decoder
    const buffer: array<byte>
    var pipeToPlugin: seq<byte>
    var pipeFromPlugin: seq<byte>
    var requests: seq<Request>
    var replies: seq<nat>

    ghost predicate Valid()
      reads this, decoder, decoder.decodingTable
    {
      decoder.Valid() && buffer.Length == BLOCK_SIZE
    }

    constructor ()
      ensures Valid() && fresh(buffer) && fresh(decoder)
      ensures pipeToPlugin == [] && pipeFromPlugin == [] && requests == [] && replies == []
    {
      decoder := new Base64.Decoder();
      buffer := new byte[BLOCK_SIZE];
      pipeToPlugin, pipeFromPlugin, requests, replies := [], [], [], [];
    }

    /** sip_envia_datos */
    method SendData(data: array<byte>, length: nat)
      requires length <= data.Length <= BLOCK_SIZE
      modifies this`requests
      ensures requests == old(requests) + [Envelope(data[..length])]
    {
      ChunkFits(length);
      var encoded := Base64.Encode(data, length);
      requests := requests + [Request(true, Some(encoded[..]))];
    }

    /** One turn of sip_loop_tun_events: select, read, send. */
    method LoopTunEvents(readOutcome: int)
      requires Valid()
      modifies this`pipeToPlugin, this`requests, buffer
      ensures Valid()
      ensures var n := Moved(readOutcome, Min(1504, |old(pipeToPlugin)|));
              && pipeToPlugin == old(pipeToPlugin)[n..]
              && requests == old(requests) + (if n == 0 then [] else [Envelope(old(pipeToPlugin)[..n])])
    {
      if pipeToPlugin != [] {
        var nBytes;
        nBytes, pipeToPlugin := Read(pipeToPlugin, buffer, BLOCK_SIZE - 1, readOutcome);
        if nBytes > 0 {
          SendData(buffer, nBytes);
        }
      }
    }

    /** on_rx_request: refuse what is not OPTIONS or has no Multivpn header; otherwise decode,
        write to the pipe, and accept whatever became of the write. */
    method OnRxRequest(req: Request, writeOutcome: int)
      requires Valid() && Receivable(req)
      modifies this`pipeFromPlugin, this`replies, decoder
      ensures Valid()
      ensures !req.CarriesTraffic() ==> replies == old(replies) + [500] && pipeFromPlugin == old(pipeFromPlugin)
      ensures req.CarriesTraffic() ==> replies == old(replies) + [666]
      ensures req.CarriesTraffic() ==>
                pipeFromPlugin == old(pipeFromPlugin) + Opened(req)[..Moved(writeOutcome, |Opened(req)|)]
    {
      if !req.isOptions {
        replies := replies + [REFUSED];
        return;
      }
      if req.multivpn.None? {
        replies := replies + [REFUSED];
        return;
      }
      var header := req.multivpn.value;
      var payload := new char[PAYLOAD_SIZE];
      Memset(payload);
      Strncpy(payload, header, |header|);
      assert payload[PAYLOAD_SIZE - 1] == NUL;
      var length := Strlen(payload);
      assert payload[..length] == Payload(header);
      Spec.SourceLengths(length);
      var decoded := decoder.Decode(payload, length);
      Accept(decoded, writeOutcome);
    }

    /** The end of on_rx_request: whatever became of the write, the request is accepted. */
    method Accept(decoded: array<byte>, writeOutcome: int)
      modifies this`pipeFromPlugin, this`replies
      ensures replies == old(replies) + [ACCEPTED]
      ensures pipeFromPlugin == old(pipeFromPlugin) + decoded[..][..Moved(writeOutcome, decoded.Length)]
    {
      var nBytes;
      nBytes, pipeFromPlugin := Write(pipeFromPlugin, decoded, decoded.Length, writeOutcome);
      assert decoded[..][..Moved(writeOutcome, decoded.Length)] == decoded[..Moved(writeOutcome, decoded.Length)];
      replies := replies + [ACCEPTED];
    }
  }

  /** One chunk all the way, through both processes' code: what the sender reads from its pipe
      is what the receiver writes to its own. */
  method RelayChunk(a: Endpoint, b: Endpoint, readOutcome: int)
    requires a.Valid() && b.Valid() && a != b && a.decoder != b.decoder
    requires readOutcome > 0 && a.pipeToPlugin != []
    modifies a, a.buffer, b, b.decoder
    ensures var n := Moved(readOutcome, Min(BLOCK_SIZE - 1, |old(a.pipeToPlugin)|));
            && n > 0 && a.pipeToPlugin == old(a.pipeToPlugin)[n..]
            && b.pipeFromPlugin == old(b.pipeFromPlugin) + old(a.pipeToPlugin)[..n]
    ensures b.replies == old(b.replies) + [666]
  {
    ghost var chunk := a.pipeToPlugin[..Moved(readOutcome, Min(BLOCK_SIZE - 1, |a.pipeToPlugin|))];
    OpenedWhole(chunk);
    a.LoopTunEvents(readOutcome);
    var request := a.requests[|a.requests| - 1];
    b.OnRxRequest(request, BLOCK_SIZE);
  }

  lemma OpenedWhole(chunk: seq<byte>)
    requires 0 < |chunk| <= BLOCK_SIZE - 1
    ensures Receivable(Envelope(chunk)) && Envelope(chunk).CarriesTraffic()
    ensures Opened(Envelope(chunk))[..Moved(BLOCK_SIZE, |Opened(Envelope(chunk))|)] == chunk
  {
    PathIsExact(chunk);
    assert chunk[..|chunk|] == chunk;
  }
}
