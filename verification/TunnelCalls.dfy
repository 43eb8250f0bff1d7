/**
 The loops of main.c and tcp_plugin.c pass by pass: what one pass moves for every result of its
 read and its write, and what becomes of a chunk whose write is short, fails or finds no room.
 */
module TunnelCalls {
  import opened Bits
  import opened Io
  import opened Tunnel
  import opened TunnelFlow

  /** One pass of the while loop in MainLoop, for the results of its read and its write. */
  function MainPass(l: Limits, h: Host, r: int, w: int): Host {
    MainWrite(l, MainRead(MainSelect(h), r), w)
  }

  /** One pass of the while loop of tcp_startClient or tcp_startServer. */
  function PluginPass(l: Limits, h: Host, r: int, w: int): Host {
    PluginWrite(l, PluginRead(PluginSelect(h), r), w)
  }

  lemma NothingWaits(l: Limits, h: Host, r: int, w: int)
    ensures h.main.Selecting? && h.tapIn == [] && h.pipeFrom == [] ==> MainPass(l, h, r, w) == h
    ensures h.plugin.Selecting? && h.inbox == [] && h.pipeTo == [] ==> PluginPass(l, h, r, w) == h
  {
  }

  lemma Fronts(c: seq<byte>, w: nat)
    ensures c[..|c|] == c && c + [] == c && c[..0] == []
    ensures w <= |c| ==> |c[..w]| == w
  {
  }

  lemma FrontOfFront(c: seq<byte>, w: nat, k: nat)
    requires w <= k <= |c|
    ensures c[..k][..w] == c[..w]
  {
  }

  /** From the device: a read takes one frame, of which 1504 bytes at most; if the read fails, the
      frame stays. */
  lemma DevicePass(l: Limits, h: Host, r: int, w: int)
    requires h.main.Selecting? && h.tapIn != []
    ensures r <= 0 ==> MainPass(l, h, r, w) == h
    ensures r > 0 ==>
              var c := h.tapIn[0][..Min(r, Min(1504, |h.tapIn[0]|))];
              var read, after := h.(tapIn := h.tapIn[1..], taken := h.taken + c), MainPass(l, h, r, w);
              && (w <= 0 && |h.pipeTo| <= l.pipe ==> after == read)
              && (0 < w <= |c| && |h.pipeTo| + w <= l.pipe ==> after == read.(pipeTo := h.pipeTo + c[..w]))
              && (w >= |c| && |h.pipeTo| + |c| <= l.pipe ==> after == read.(pipeTo := h.pipeTo + c))
              && (w >= |c| && |h.pipeTo| + |c| > l.pipe ==> after == read.(main := Writing(Outbound, c)))
  {
    if r > 0 {
      var c := h.tapIn[0][..Min(r, Min(1504, |h.tapIn[0]|))];
      assert MainRead(MainSelect(h), r)
             == h.(tapIn := h.tapIn[1..], taken := h.taken + c, main := Writing(Outbound, c));
      Fronts(c, 0);
      Fronts(h.pipeTo, 0);
    }
  }

  /** To the device: a read of the pipe takes 1505 bytes at most, and one write hands all of them to
      the device, or as many as it accepts; the others are gone. */
  lemma DeliveryPass(l: Limits, h: Host, r: int, w: int)
    requires h.main.Selecting? && h.tapIn == [] && h.pipeFrom != []
    ensures r <= 0 ==> MainPass(l, h, r, w) == h
    ensures r > 0 ==>
              var k := Min(r, Min(1505, |h.pipeFrom|));
              var read, after := h.(pipeFrom := h.pipeFrom[k..]), MainPass(l, h, r, w);
              && (w <= 0 ==> after == read)
              && (0 < w <= k ==> after == read.(delivered := h.delivered + h.pipeFrom[..w]))
              && (w >= k ==> after == read.(delivered := h.delivered + h.pipeFrom[..k]))
  {
    if r > 0 {
      var k := Min(r, Min(1505, |h.pipeFrom|));
      var c := h.pipeFrom[..k];
      assert MainRead(MainSelect(h), r) == h.(pipeFrom := h.pipeFrom[k..], main := Writing(Inbound, c));
      Fronts(c, 0);
      Fronts(h.delivered, 0);
      if 0 < w <= k { FrontOfFront(h.pipeFrom, w, k); }
    }
  }

  /** From the socket: 1504 bytes at most, into pipe_from_plugin. */
  lemma SocketPass(l: Limits, h: Host, r: int, w: int)
    requires h.plugin.Selecting? && h.inbox != []
    ensures r <= 0 ==> PluginPass(l, h, r, w) == h
    ensures r > 0 ==>
              var k := Min(r, Min(1504, |h.inbox|));
              var read, after := h.(inbox := h.inbox[k..]), PluginPass(l, h, r, w);
              && (w <= 0 && |h.pipeFrom| <= l.pipe ==> after == read)
              && (0 < w <= k && |h.pipeFrom| + w <= l.pipe ==> after == read.(pipeFrom := h.pipeFrom + h.inbox[..w]))
              && (w >= k && |h.pipeFrom| + k <= l.pipe ==> after == read.(pipeFrom := h.pipeFrom + h.inbox[..k]))
              && (w >= k && |h.pipeFrom| + k > l.pipe ==> after == read.(plugin := Writing(Inbound, h.inbox[..k])))
  {
    if r > 0 {
      var k := Min(r, Min(1504, |h.inbox|));
      var c := h.inbox[..k];
      assert PluginRead(PluginSelect(h), r) == h.(inbox := h.inbox[k..], plugin := Writing(Inbound, c));
      Fronts(c, 0);
      Fronts(h.pipeFrom, 0);
      if 0 < w <= k { FrontOfFront(h.inbox, w, k); }
    }
  }

  /** From pipe_to_plugin, if the socket has nothing: 1504 bytes at most, into the socket. */
  lemma SendPass(l: Limits, h: Host, r: int, w: int)
    requires h.plugin.Selecting? && h.inbox == [] && h.pipeTo != []
    ensures r <= 0 ==> PluginPass(l, h, r, w) == h
    ensures r > 0 ==>
              var k := Min(r, Min(1504, |h.pipeTo|));
              var read, after := h.(pipeTo := h.pipeTo[k..]), PluginPass(l, h, r, w);
              && (w <= 0 && |h.wire| <= l.wire ==> after == read)
              && (0 < w <= k && |h.wire| + w <= l.wire ==> after == read.(wire := h.wire + h.pipeTo[..w]))
              && (w >= k && |h.wire| + k <= l.wire ==> after == read.(wire := h.wire + h.pipeTo[..k]))
              && (w >= k && |h.wire| + k > l.wire ==> after == read.(plugin := Writing(Outbound, h.pipeTo[..k])))
  {
    if r > 0 {
      var k := Min(r, Min(1504, |h.pipeTo|));
      var c := h.pipeTo[..k];
      assert PluginRead(PluginSelect(h), r) == h.(pipeTo := h.pipeTo[k..], plugin := Writing(Outbound, c));
      Fronts(c, 0);
      Fronts(h.wire, 0);
      if 0 < w <= k { FrontOfFront(h.pipeTo, w, k); }
    }
  }

  // ---- what becomes of a chunk ----

  /** A failed write of the main loop: back to select, the queues as before, the chunk lost. */
  lemma MainForgets(l: Limits, h: Host, outcome: int)
    requires h.main.Writing? && outcome <= 0 && |h.pipeTo| <= l.pipe
    ensures MainWrite(l, h, outcome) == h.(main := Selecting)
    ensures Loss(l, h, MainWrites(outcome), h.main.branch) == |h.main.chunk|
  {
    Fronts(h.main.chunk, 0);
    Fronts(h.pipeTo, 0);
    Fronts(h.delivered, 0);
  }

  /** A failed write of the plugin to its pipe or its socket. */
  lemma PluginForgets(l: Limits, h: Host, outcome: int)
    requires h.plugin.Writing? && outcome <= 0 && |h.pipeFrom| <= l.pipe && |h.wire| <= l.wire
    ensures PluginWrite(l, h, outcome) == h.(plugin := Selecting)
    ensures Loss(l, h, PluginWrites(outcome), h.plugin.branch) == |h.plugin.chunk|
  {
    Fronts(h.plugin.chunk, 0);
    Fronts(h.pipeFrom, 0);
    Fronts(h.wire, 0);
  }

  /** A write that accepts k bytes of a chunk loses the others, if there is room for the k. */
  lemma ShortWriteLoses(l: Limits, h: Host, k: nat)
    requires k > 0
    ensures h.main.Writing? && k <= |h.main.chunk| && (h.main.branch.Outbound? ==> |h.pipeTo| + k <= l.pipe) ==>
              && MainWrite(l, h, k).main.Selecting?
              && Loss(l, h, MainWrites(k), h.main.branch) == |h.main.chunk| - k
    ensures h.plugin.Writing? && k <= |h.plugin.chunk|
            && (if h.plugin.branch.Inbound? then |h.pipeFrom| + k <= l.pipe else |h.wire| + k <= l.wire) ==>
              && PluginWrite(l, h, k).plugin.Selecting?
              && Loss(l, h, PluginWrites(k), h.plugin.branch) == |h.plugin.chunk| - k
  {
  }

  /** A thread at its write stays there exactly if there is no room for what is to be written; for a
      full write that is the whole chunk. */
  lemma WaitsForRoomOnly(l: Limits, h: Host, outcome: int)
    ensures h.main.Writing? ==> (MainWrite(l, h, outcome) == h <==> Waits(l, h, MainWrites(outcome)))
    ensures h.main.Writing? && outcome >= |h.main.chunk| ==>
              (Waits(l, h, MainWrites(outcome))
               <==> h.main.branch.Outbound? && |h.pipeTo| + |h.main.chunk| > l.pipe)
    ensures h.plugin.Writing? ==> (PluginWrite(l, h, outcome) == h <==> Waits(l, h, PluginWrites(outcome)))
    ensures h.plugin.Writing? && outcome >= |h.plugin.chunk| ==>
              (Waits(l, h, PluginWrites(outcome))
               <==> if h.plugin.branch.Inbound? then |h.pipeFrom| + |h.plugin.chunk| > l.pipe
                                                else |h.wire| + |h.plugin.chunk| > l.wire)
  {
  }
}
