/**
 The send side of the client. A data frame takes one of three routes: the raw
 socket, the transport's buffer, or the queue kept while writing is paused.
 Control frames go straight to the transport.
 */
module SendPath {
  import opened Common
  import opened Codec
  import opened Masking
  import opened ClientFrame

  datatype Outgoing = Text(utf8: bytes) | Binary(data: bytes) | Unsupported

  datatype SendError = Closed | HandshakeOpen | NoTransport | BadMessage | PayloadTooLong

  /** The frame a send() call builds. */
  function FrameOf(compress: bytes -> bytes, deflate: bool, message: Outgoing, mask: bytes): WireFrame
    requires !message.Unsupported?
  {
    var raw := if message.Text? then message.utf8 else message.data;
    WireFrame(if message.Text? then OP_TEXT else OP_BINARY, deflate, if deflate then compress(raw) else raw, mask)
  }

  predicate IsData(f: WireFrame) { f.opcode == OP_TEXT || f.opcode == OP_BINARY }

  ghost predicate AllData(fs: seq<WireFrame>) { forall f :: f in fs ==> IsData(f) }

  ghost function DataOf(fs: seq<WireFrame>): seq<WireFrame> {
    if fs == [] then []
    else DataOf(fs[..|fs| - 1]) + if IsData(fs[|fs| - 1]) then [fs[|fs| - 1]] else []
  }

  lemma {:induction false} DataOfAppend(fs: seq<WireFrame>, f: WireFrame)
    ensures DataOf(fs + [f]) == DataOf(fs) + if IsData(f) then [f] else []
  {
    assert (fs + [f])[..|fs|] == fs;
  }

  ghost function Encodings(fs: seq<WireFrame>): seq<bytes>
    requires AllSendable(fs)
  {
    seq(|fs|, i requires 0 <= i < |fs| => Encode(fs[i]))
  }

  class Sender {
    /** DEFLATE with the sync marker stripped: foreign code. */
    const compress: bytes -> bytes

    var handshakeDone: bool
    var deflate: bool
    var closed: bool
    var hasTransport: bool
    var rawFd: bool
    var reportsBufSize: bool
    var paused: bool
    var bufKnownEmpty: bool
    var writeQueue: seq<bytes>

    // The transport: its write buffer, everything the kernel has accepted, and which of its
    // writes call pause_writing before they return.
    var transportBuf: bytes
    var socket: bytes
    const pausesAt: nat -> bool
    var writes: nat

    ghost var preamble: bytes          // handshake request
    ghost var wire: seq<WireFrame>     // frames handed to socket or transport, in order
    ghost var queued: seq<WireFrame>   // frames in writeQueue
    ghost var sent: seq<WireFrame>     // every accepted send(), in call order

    /** Bytes after the handshake request are whole frames, the flag that opens
        the raw route is truthful, and data frames keep their send() order. Holds
        also inside a scan that has met a Close. */
    ghost predicate Steady()
      reads this
    {
      && AllSendable(wire) && AllSendable(queued) && AllData(queued)
      && socket + transportBuf == preamble + EncodeAll(wire)
      && writeQueue == Encodings(queued)
      && (bufKnownEmpty && !closed ==> transportBuf == [])
      && (!paused ==> writeQueue == [])
      && (!hasTransport ==> writeQueue == [])
      && (if closed then DataOf(wire) <= sent else DataOf(wire) + queued == sent)
    }

    /** Between calls exactly a closed client has let go of its transport. */
    ghost predicate Valid()
      reads this
    {
      Steady() && (closed <==> !hasTransport)
    }

    /** What the peer can decode from the bytes alone, once all of them arrive. */
    lemma {:induction false} PeerDecodes()
      requires Valid()
      ensures DecodeAll((socket + transportBuf)[|preamble|..]) == Some(AllInClear(wire))
    {
      hide DecodeAll, AllInClear, DataOf, Encodings;
      DecodeEncodeAll(wire);
      assert (preamble + EncodeAll(wire))[|preamble|..] == EncodeAll(wire);
    }

    /** Right after connecting: only the handshake request has been written. */
    constructor (compress: bytes -> bytes, pausesAt: nat -> bool, compression: bool, plainTcp: bool,
                 reportsBufSize: bool, request: bytes)
      ensures Valid() && !closed && hasTransport && !paused && sent == [] && wire == []
      ensures preamble == request
    {
      this.compress, deflate, handshakeDone, closed := compress, compression, false, false;
      hasTransport, rawFd, this.reportsBufSize := true, plainTcp, reportsBufSize;
      paused, bufKnownEmpty, writeQueue := false, false, [];
      transportBuf, socket, this.pausesAt, writes := request, [], pausesAt, 0;
      preamble, wire, queued, sent := request, [], [], [];
    }

    method CompleteHandshake(compressionAccepted: bool)
      requires Valid()
      modifies this`handshakeDone, this`deflate
      ensures Valid() && handshakeDone && deflate == (old(deflate) && compressionAccepted)
    {
      handshakeDone, deflate := true, deflate && compressionAccepted;
    }

    // ---- the environment ----

    /** One non-blocking send: any prefix may be accepted, or none on error. */
    method NativeSend(data: bytes) returns (written: int)
      modifies this`socket
      ensures -1 <= written <= |data|
      ensures socket == old(socket) + if written > 0 then data[..written] else []
    {
      written :| -1 <= written <= |data|;
      if written > 0 { socket := socket + data[..written]; }
    }

    /** The event loop moves the front of the transport buffer to the socket. */
    method Drain()
      requires Valid()
      modifies this`socket, this`transportBuf
      ensures Valid()
      ensures socket + transportBuf == old(socket + transportBuf)
    {
      var n :| 0 <= n <= |transportBuf|;
      assert socket + transportBuf == socket + transportBuf[..n] + transportBuf[n..];
      socket, transportBuf := socket + transportBuf[..n], transportBuf[n..];
    }

    /** transport.write: appends, may drain at once, and may call pause_writing
        before it returns. */
    method TransportWrite(data: bytes)
      modifies this`socket, this`transportBuf, this`writes, this`paused, this`bufKnownEmpty
      ensures socket + transportBuf == old(socket + transportBuf) + data
      ensures bufKnownEmpty ==> old(bufKnownEmpty)
      ensures writes == old(writes) + 1 && paused == (old(paused) || pausesAt(old(writes)))
    {
      transportBuf := transportBuf + data;
      var n :| 0 <= n <= |transportBuf|;
      assert socket + transportBuf == socket + transportBuf[..n] + transportBuf[n..];
      socket, transportBuf := socket + transportBuf[..n], transportBuf[n..];
      writes := writes + 1;
      if pausesAt(writes - 1) { PauseWriting(); }
    }

    /** One of the writes numbered `a` up to but excluding `b` paused writing. */
    ghost predicate Congested(a: nat, b: nat) { exists i: nat :: a <= i < b && pausesAt(i) }

    lemma {:induction false} CongestedNext(a: nat, b: nat)
      requires a <= b
      ensures !Congested(a, a) && (Congested(a, b + 1) <==> Congested(a, b) || pausesAt(b))
    {
    }

    method PauseWriting()
      modifies this`paused, this`bufKnownEmpty
      ensures paused && !bufKnownEmpty
    {
      paused := true;
      bufKnownEmpty := false;
    }

    // ---- data frames ----

    method Send(message: Outgoing, mask: bytes) returns (r: Result<(), SendError>)
      requires Valid() && |mask| == 4
      requires !message.Unsupported? ==> |FrameOf(compress, deflate, message, mask).payload| < Pow256(8)
      modifies this`socket, this`transportBuf, this`writes, this`paused, this`bufKnownEmpty, this`wire,
               this`writeQueue, this`queued, this`sent
      ensures Valid() && preamble == old(preamble)
      ensures r == if old(closed) then Err(Closed)
                   else if !old(handshakeDone) then Err(HandshakeOpen)
                   else if message.Unsupported? then Err(BadMessage)
                   else Ok(())
      ensures r.Ok? ==> sent == old(sent) + [FrameOf(compress, deflate, message, mask)]
      ensures r.Ok? && old(paused) ==> wire == old(wire) && socket + transportBuf == old(socket + transportBuf)
      ensures r.Ok? && !old(paused) ==> wire == old(wire) + sent[|old(sent)|..]
      ensures r.Err? ==> sent == old(sent) && wire == old(wire)
      ensures r.Err? ==> socket == old(socket) && transportBuf == old(transportBuf)
      ensures closed == old(closed) && hasTransport == old(hasTransport)
      ensures old(writes) <= writes && paused == (old(paused) || Congested(old(writes), writes))
    {
      hide Encode, EncodeAll, Encodings, DataOf, Sendable, Pow256, Congested;
      CongestedNext(writes, writes);
      if closed { return Err(Closed); }
      if !handshakeDone { return Err(HandshakeOpen); }
      if !hasTransport { return Err(NoTransport); }
      if message.Unsupported? { return Err(BadMessage); }
      var frame := FrameOf(compress, deflate, message, mask);
      SendableFrame(frame);
      var out := Encode(frame);
      r := Ok(());
      sent := sent + [frame];
      if paused {
        QueueAppends(queued, frame);
        writeQueue := writeQueue + [out];
        queued := queued + [frame];
        ConcatAssociative(DataOf(wire), old(queued), [frame]);
        return;
      }
      assert old(queued) == [] by { QueueEmpty(queued); }
      WireAppends(preamble, wire, frame);
      wire := wire + [frame];
      Transmit(out);
    }

    /** Put one encoded frame on the wire: on the raw socket if the transport's buffer is
        known to be empty, with the transport taking what the socket does not. */
    method Transmit(out: bytes)
      requires bufKnownEmpty ==> transportBuf == []
      modifies this`socket, this`transportBuf, this`writes, this`paused, this`bufKnownEmpty
      ensures socket + transportBuf == old(socket + transportBuf) + out
      ensures bufKnownEmpty ==> transportBuf == []
      ensures old(writes) <= writes && paused == (old(paused) || Congested(old(writes), writes))
    {
      if rawFd {
        var drained := bufKnownEmpty;
        if !drained {
          drained := reportsBufSize && transportBuf == [];
          if drained { bufKnownEmpty := true; }
        }
        if drained {
          var written := NativeSend(out);
          if written == |out| {
            assert out[..written] == out;
            return;
          }
          if written > 0 {
            bufKnownEmpty := false;
            assert out == out[..written] + out[written..];
            TransportWrite(out[written..]);
            return;
          }
        }
      }
      bufKnownEmpty := false;
      TransportWrite(out);
    }

    /** The transport drained below its low-water mark: flush the queue in order. */
    method ResumeWriting()
      requires Valid()
      modifies this`socket, this`transportBuf, this`writes, this`paused, this`bufKnownEmpty, this`wire,
               this`writeQueue, this`queued
      ensures Valid() && sent == old(sent) && closed == old(closed) && preamble == old(preamble)
      ensures writeQueue == [] && wire == old(wire) + old(queued) && hasTransport == old(hasTransport)
      ensures old(writes) <= writes && paused == Congested(old(writes), writes)
    {
      hide Encode, EncodeAll, Encodings, DataOf, Sendable, IsData, Congested;
      CongestedNext(writes, writes);
      paused := false;
      bufKnownEmpty := false;
      if !hasTransport {
        QueueEmpty(queued);
        assert wire + [] == wire;
        return;
      }
      var queue := writeQueue;
      ghost var left := queued;
      writeQueue, queued := [], [];
      NoEncodings();
      if closed { QueueEmpty(left); }
      while queue != []
        invariant AllSendable(wire) && AllSendable(left) && AllData(left) && queue == Encodings(left)
        invariant socket + transportBuf == preamble + EncodeAll(wire) && !bufKnownEmpty
        invariant if closed then DataOf(wire) <= sent else DataOf(wire) + left == sent
        invariant closed ==> left == []
        invariant wire + left == old(wire) + old(queued)
        invariant old(writes) <= writes && paused == Congested(old(writes), writes)
        modifies this`wire, this`socket, this`transportBuf, this`writes, this`paused, this`bufKnownEmpty
        decreases |queue|
      {
        FirstOfQueue(left);
        var f := left[0];
        CongestedNext(old(writes), writes);
        TransportWrite(queue[0]);
        WireAppends(preamble, wire, f);
        ConcatAssociative(DataOf(wire), [f], left[1..]);
        ConcatAssociative(wire, [f], left[1..]);
        queue, left, wire := queue[1..], left[1..], wire + [f];
      }
      QueueEmpty(left);
      assert DataOf(wire) + [] == DataOf(wire) && wire + [] == wire;
    }

    // ---- control frames ----

    /** The encoder clears the cached flag before the frame is written. */
    method EncodeControl(f: WireFrame) returns (out: bytes)
      requires Sendable(f) && |f.payload| <= 125
      modifies this`bufKnownEmpty
      ensures out == Encode(f) && !bufKnownEmpty
    {
      bufKnownEmpty := false;
      out := Encode(f);
    }

    /** ping() and pong(): written past whatever data is queued. */
    method SendControl(opcode: nat, payload: bytes, mask: bytes) returns (r: Result<(), SendError>)
      requires Valid() && |mask| == 4 && (opcode == OP_PING || opcode == OP_PONG)
      modifies this`socket, this`transportBuf, this`writes, this`paused, this`bufKnownEmpty, this`wire
      ensures Valid() && sent == old(sent) && queued == old(queued) && preamble == old(preamble)
      ensures r == if |payload| > 125 then Err(PayloadTooLong) else if old(closed) then Err(Closed) else Ok(())
      ensures wire == old(wire) + if r.Ok? then [WireFrame(opcode, false, payload, mask)] else []
      ensures closed == old(closed) && hasTransport == old(hasTransport)
      ensures old(writes) <= writes && paused == (old(paused) || Congested(old(writes), writes))
    {
      hide Encode, EncodeAll, Encodings, DataOf, Sendable;
      assert wire + [] == wire;
      if |payload| > 125 { return Err(PayloadTooLong); }
      if closed { return Err(Closed); }
      if !hasTransport { return Err(NoTransport); }
      var f := WireFrame(opcode, false, payload, mask);
      ControlSendable(f);
      var out := EncodeControl(f);
      WireAppends(preamble, wire, f);
      TransportWrite(out);
      wire := wire + [f];
      assert DataOf(wire) + queued == sent;
      r := Ok(());
    }

    /** Encode the replies to the Pings of one scan. */
    method EncodePongs(pings: seq<bytes>, masks: seq<bytes>) returns (pongs: seq<bytes>)
      requires |masks| == |pings| && AllSendable(Pongs(pings, masks))
      modifies this`bufKnownEmpty
      ensures pongs == Encodings(Pongs(pings, masks))
      ensures bufKnownEmpty ==> old(bufKnownEmpty) && pings == []
    {
      hide Encode, Sendable;
      pongs := [];
      for i := 0 to |pings|
        invariant pongs == Encodings(Pongs(pings, masks))[..i]
        invariant bufKnownEmpty ==> old(bufKnownEmpty) && i == 0
      {
        var f := WireFrame(OP_PONG, false, pings[i][..Min(|pings[i]|, 125)], masks[i]);
        assert f == Pongs(pings, masks)[i] && f in Pongs(pings, masks);
        var out := EncodeControl(f);
        pongs := pongs + [out];
      }
    }

    /** Write encoded control frames one after the other. */
    method WriteControls(outs: seq<bytes>, ghost fs: seq<WireFrame>)
      requires Steady() && (outs == [] || !bufKnownEmpty)
      requires AllSendable(fs) && outs == Encodings(fs) && forall f :: f in fs ==> !IsData(f)
      modifies this`wire, this`socket, this`transportBuf, this`writes, this`paused, this`bufKnownEmpty
      ensures Steady() && wire == old(wire) + fs
      ensures old(writes) <= writes && paused == (old(paused) || Congested(old(writes), writes))
    {
      hide Encode, EncodeAll, DataOf, Sendable, IsData;
      for i := 0 to |outs|
        invariant Steady() && wire == old(wire) + fs[..i]
        invariant old(writes) <= writes && paused == (old(paused) || Congested(old(writes), writes))
        invariant bufKnownEmpty ==> outs == []
      {
        assert fs[i] in fs;
        WireAppends(preamble, wire, fs[i]);
        TransportWrite(outs[i]);
        assert DataOf(wire + [fs[i]]) == DataOf(wire);
        wire := wire + [fs[i]];
      }
      assert fs[..|outs|] == fs;
    }

    /** Replies to the Pings of one scan: all are encoded during the walk and written in order
        after it. A Close that ends the walk marks the client closed before that, and lets go
        of the transport after it. */
    method AnswerPings(pings: seq<bytes>, masks: seq<bytes>, peerClose: bool)
      requires Valid() && |masks| == |pings| && forall m :: m in masks ==> |m| == 4
      modifies this`socket, this`transportBuf, this`writes, this`paused, this`bufKnownEmpty, this`wire,
               this`closed, this`hasTransport, this`rawFd, this`writeQueue, this`queued
      ensures Valid() && sent == old(sent) && preamble == old(preamble)
      ensures wire == old(wire) + if old(hasTransport) then Pongs(pings, masks) else []
      ensures peerClose ==> closed
      ensures old(writes) <= writes && paused == (old(paused) || Congested(old(writes), writes))
      ensures !peerClose ==> closed == old(closed) && hasTransport == old(hasTransport) && queued == old(queued)
    {
      hide Encode, EncodeAll, DataOf, Sendable, IsData;
      assert wire + [] == wire;
      if hasTransport {
        PongsAreControls(pings, masks);
        PongsSendable(pings, masks);
        var pongs := EncodePongs(pings, masks);
        if peerClose { BeginPeerClose(); }
        WriteControls(pongs, Pongs(pings, masks));
      } else if peerClose {
        BeginPeerClose();
      }
      if peerClose { EndPeerClose(); }
    }

    method BeginPeerClose()
      requires Steady()
      modifies this`closed
      ensures Steady() && closed
    {
      hide Encode, EncodeAll, DataOf, Sendable;
      closed := true;
    }

    method EndPeerClose()
      requires Steady() && closed
      modifies this`hasTransport, this`rawFd, this`writeQueue, this`queued
      ensures Valid() && !hasTransport
    {
      hide Encode, EncodeAll, DataOf, Sendable;
      ReleaseReferences();
      NoEncodings();
    }

    // ---- end of the connection ----

    /** Drop the cached transport and everything still queued. */
    method ReleaseReferences()
      modifies this`hasTransport, this`rawFd, this`writeQueue, this`queued
      ensures !hasTransport && writeQueue == [] && queued == []
    {
      hasTransport, rawFd, writeQueue := false, false, [];
      queued := [];
    }

    /** close(): the first call puts an empty Close frame behind all written frames. */
    method Close()
      requires Valid()
      modifies this`socket, this`transportBuf, this`writes, this`paused, this`bufKnownEmpty, this`wire,
               this`closed, this`hasTransport, this`rawFd, this`writeQueue, this`queued
      ensures Valid() && closed && !hasTransport && sent == old(sent) && preamble == old(preamble)
      ensures wire == old(wire) + if old(hasTransport) && !old(closed) then [CLOSE_FRAME] else []
      ensures old(writes) <= writes && paused == (old(paused) || Congested(old(writes), writes))
    {
      hide Encode, EncodeAll, DataOf, Sendable, Congested;
      CongestedNext(writes, writes);
      var wasClosed, transport := closed, hasTransport;
      closed := true;
      ReleaseReferences();
      assert wire + [] == wire;
      if transport && !wasClosed {
        CloseFrameBytes();
        WireAppends(preamble, wire, CLOSE_FRAME);
        TransportWrite([0x88, 0x80, 0, 0, 0, 0]);
        wire := wire + [CLOSE_FRAME];
        assert DataOf(wire) == DataOf(old(wire));
      }
    }

    /** A protocol error: one Close frame carrying the code, then the transport is closed. */
    method FailConnection(code: nat, mask: bytes)
      requires Valid() && |mask| == 4 && code < 0x1_0000
      modifies this`socket, this`transportBuf, this`writes, this`paused, this`bufKnownEmpty, this`wire,
               this`closed, this`hasTransport, this`rawFd, this`writeQueue, this`queued
      ensures Valid() && closed && !hasTransport && sent == old(sent) && preamble == old(preamble)
      ensures wire == old(wire) +
                      if old(hasTransport) then [WireFrame(OP_CLOSE, false, ToBigEndian(code, 2), mask)] else []
      ensures old(writes) <= writes && paused == (old(paused) || Congested(old(writes), writes))
    {
      hide Encode, EncodeAll, DataOf, Sendable, ToBigEndian, Congested;
      CongestedNext(writes, writes);
      closed := true;
      var transport := hasTransport;
      var f := WireFrame(OP_CLOSE, false, ToBigEndian(code, 2), mask);
      ControlSendable(f);
      var out := EncodeControl(f);
      ReleaseReferences();
      assert wire + [] == wire;
      if transport {
        WireAppends(preamble, wire, f);
        TransportWrite(out);
        wire := wire + [f];
        assert DataOf(wire) == DataOf(old(wire));
      }
    }

    /** Peer close and connection loss write nothing. */
    method Lose()
      requires Valid()
      modifies this`closed, this`hasTransport, this`rawFd, this`writeQueue, this`queued
      ensures Valid() && closed && !hasTransport && sent == old(sent) && wire == old(wire) && preamble == old(preamble)
    {
      closed := true;
      ReleaseReferences();
    }
  }

  datatype Op =
    | Handshake(compressionAccepted: bool)
    | Message(message: Outgoing, mask: bytes)
    | Control(opcode: nat, payload: bytes, mask: bytes)
    | Answer(pings: seq<bytes>, masks: seq<bytes>, peerClose: bool)
    | Pause
    | Resume
    | DrainSome
    | CloseLocally
    | Violation(code: nat, mask: bytes)
    | Gone

  ghost predicate OpOk(compress: bytes -> bytes, op: Op) {
    match op
    case Message(m, mask) =>
      && |mask| == 4
      && (m.Text? ==> |m.utf8| < Pow256(8) && |compress(m.utf8)| < Pow256(8))
      && (m.Binary? ==> |m.data| < Pow256(8) && |compress(m.data)| < Pow256(8))
    case Control(opcode, _, mask) => |mask| == 4 && (opcode == OP_PING || opcode == OP_PONG)
    case Answer(pings, masks, _) => |pings| == |masks| && forall m :: m in masks ==> |m| == 4
    case Violation(code, mask) => |mask| == 4 && code < 0x1_0000
    case _ => true
  }

  // ---- what a run sends ----

  ghost function ControlsOf(fs: seq<WireFrame>): seq<WireFrame> {
    if fs == [] then []
    else ControlsOf(fs[..|fs| - 1]) + if IsData(fs[|fs| - 1]) then [] else [fs[|fs| - 1]]
  }

  lemma {:induction false} ControlsOfConcat(fs: seq<WireFrame>, gs: seq<WireFrame>)
    ensures ControlsOf(fs + gs) == ControlsOf(fs) + ControlsOf(gs)
  {
    hide IsData;
    if gs == [] {
      assert fs + gs == fs;
    } else {
      var n := |gs| - 1;
      assert (fs + gs)[..|fs + gs| - 1] == fs + gs[..n];
      ControlsOfConcat(fs, gs[..n]);
    }
  }

  lemma {:induction false} ControlsOfAppend(fs: seq<WireFrame>, f: WireFrame)
    ensures ControlsOf(fs + [f]) == ControlsOf(fs) + if IsData(f) then [] else [f]
  {
    hide IsData;
    assert (fs + [f])[..|fs|] == fs;
  }

  lemma {:induction false} ControlsOfData(fs: seq<WireFrame>)
    requires AllData(fs)
    ensures ControlsOf(fs) == []
  {
    assert ControlsOf([]) == [];
    hide IsData, ControlsOf;
    for i := 0 to |fs|
      invariant ControlsOf(fs[..i]) == []
    {
      assert fs[i] in fs && fs[..i + 1] == fs[..i] + [fs[i]];
      ControlsOfAppend(fs[..i], fs[i]);
    }
    assert fs[..|fs|] == fs;
  }

  lemma {:induction false} ControlsOfControls(fs: seq<WireFrame>)
    requires forall f :: f in fs ==> !IsData(f)
    ensures ControlsOf(fs) == fs
  {
    assert ControlsOf([]) == [];
    hide IsData, ControlsOf;
    for i := 0 to |fs|
      invariant ControlsOf(fs[..i]) == fs[..i]
    {
      assert fs[i] in fs && fs[..i + 1] == fs[..i] + [fs[i]];
      ControlsOfAppend(fs[..i], fs[i]);
    }
    assert fs[..|fs|] == fs;
  }

  /** Appending control frames, or data frames, to the wire. */
  lemma {:induction false} ControlsGrow(w: seq<WireFrame>, fs: seq<WireFrame>)
    ensures (forall f :: f in fs ==> !IsData(f)) ==> ControlsOf(w + fs) == ControlsOf(w) + fs
    ensures AllData(fs) ==> ControlsOf(w + fs) == ControlsOf(w)
  {
    hide ControlsOf, IsData;
    ControlsOfConcat(w, fs);
    if forall f :: f in fs ==> !IsData(f) { ControlsOfControls(fs); }
    if AllData(fs) {
      ControlsOfData(fs);
      assert ControlsOf(w) + [] == ControlsOf(w);
    }
  }

  /** Is the transport held, is the handshake done, is compression on. */
  datatype Mode = Mode(open: bool, done: bool, deflate: bool)

  /** Does the operation end the connection? */
  predicate Closes(op: Op) { op.CloseLocally? || op.Violation? || op.Gone? || (op.Answer? && op.peerClose) }

  function NextMode(m: Mode, op: Op): Mode {
    if op.Handshake? then m.(done := true, deflate := m.deflate && op.compressionAccepted)
    else if Closes(op) then m.(open := false)
    else m
  }

  /** The frame of a send() call that is accepted: connection open, handshake done, type supported. */
  function SentBy(compress: bytes -> bytes, m: Mode, op: Op): seq<WireFrame> {
    if op.Message? && m.open && m.done && !op.message.Unsupported? then
      [FrameOf(compress, m.deflate, op.message, op.mask)]
    else []
  }

  function CloseFrame(code: nat, mask: bytes): WireFrame { WireFrame(OP_CLOSE, false, ToBigEndian(code, 2), mask) }

  /** The control frames an operation writes while the connection is open: replies to the
      Pings of a scan, ping() and pong() calls, and Close frames. */
  ghost function ControlsBy(m: Mode, op: Op): seq<WireFrame> {
    if !m.open then []
    else match op
      case Answer(pings, masks, _) => if |pings| == |masks| then Pongs(pings, masks) else []
      case Control(opcode, payload, mask) =>
        if |payload| <= 125 then [WireFrame(opcode, false, payload, mask)] else []
      case CloseLocally => [CLOSE_FRAME]
      case Violation(code, mask) => [CloseFrame(code, mask)]
      case _ => []
  }

  function ModeAfter(m: Mode, ops: seq<Op>): Mode {
    if ops == [] then m else NextMode(ModeAfter(m, ops[..|ops| - 1]), ops[|ops| - 1])
  }

  /** All frames accepted for sending in a run, in call order. */
  function SentIn(compress: bytes -> bytes, m: Mode, ops: seq<Op>): seq<WireFrame> {
    if ops == [] then []
    else
      var n := |ops| - 1;
      SentIn(compress, m, ops[..n]) + SentBy(compress, ModeAfter(m, ops[..n]), ops[n])
  }

  /** All control frames of a run, in order. */
  ghost function ControlsIn(m: Mode, ops: seq<Op>): seq<WireFrame> {
    if ops == [] then []
    else
      var n := |ops| - 1;
      ControlsIn(m, ops[..n]) + ControlsBy(ModeAfter(m, ops[..n]), ops[n])
  }

  ghost function ModeOf(s: Sender): Mode
    reads s
  {
    Mode(s.hasTransport, s.handshakeDone, s.deflate)
  }

  /** `op` took the sender from mode `m`, wire `w` and sent list `b` to its present state. */
  ghost predicate Advanced(s: Sender, m: Mode, w: seq<WireFrame>, b: seq<WireFrame>, op: Op)
    reads s
  {
    && s.Valid() && ModeOf(s) == NextMode(m, op)
    && s.sent == b + SentBy(s.compress, m, op)
    && w <= s.wire && ControlsOf(s.wire) == ControlsOf(w) + ControlsBy(m, op)
  }

  /** Writing is paused exactly by request or by a write, until it resumes. */
  ghost predicate Paced(s: Sender, paused: bool, writes: nat, op: Op)
    reads s
  {
    writes <= s.writes && s.paused == (op.Pause? || (paused && !op.Resume?) || s.Congested(writes, s.writes))
  }

  method PerformMessage(s: Sender, op: Op)
    requires s.Valid() && OpOk(s.compress, op) && op.Message?
    modifies s
    ensures Advanced(s, old(ModeOf(s)), old(s.wire), old(s.sent), op) && s.preamble == old(s.preamble)
    ensures Paced(s, old(s.paused), old(s.writes), op)
  {
    hide EncodeAll, DataOf, Encodings, Pow256, Sendable, ControlsOf, Encode;
    ghost var w, b := s.wire, s.sent;
    assert ControlsOf(w) + [] == ControlsOf(w) && b + [] == b;
    var r := s.Send(op.message, op.mask);
    if s.wire != w {
      assert s.sent[|b|..] == [s.sent[|b|]];
      ControlsGrow(w, s.sent[|b|..]);
    }
  }

  method PerformControl(s: Sender, op: Op)
    requires s.Valid() && OpOk(s.compress, op) && op.Control?
    modifies s
    ensures Advanced(s, old(ModeOf(s)), old(s.wire), old(s.sent), op) && s.preamble == old(s.preamble)
    ensures Paced(s, old(s.paused), old(s.writes), op)
  {
    hide EncodeAll, DataOf, Encodings, Pow256, Sendable, ControlsOf, Encode;
    ghost var w, b := s.wire, s.sent;
    assert ControlsOf(w) + [] == ControlsOf(w) && b + [] == b && w + [] == w;
    var r := s.SendControl(op.opcode, op.payload, op.mask);
    ControlsGrow(w, [WireFrame(op.opcode, false, op.payload, op.mask)]);
  }

  method PerformAnswer(s: Sender, op: Op)
    requires s.Valid() && OpOk(s.compress, op) && op.Answer?
    modifies s
    ensures Advanced(s, old(ModeOf(s)), old(s.wire), old(s.sent), op) && s.preamble == old(s.preamble)
    ensures Paced(s, old(s.paused), old(s.writes), op)
  {
    hide EncodeAll, DataOf, Encodings, Pow256, Sendable, ControlsOf, Encode;
    ghost var w, b := s.wire, s.sent;
    assert ControlsOf(w) + [] == ControlsOf(w) && b + [] == b && w + [] == w;
    s.AnswerPings(op.pings, op.masks, op.peerClose);
    ControlsGrow(w, Pongs(op.pings, op.masks));
  }

  method PerformResume(s: Sender)
    requires s.Valid()
    modifies s
    ensures Advanced(s, old(ModeOf(s)), old(s.wire), old(s.sent), Resume) && s.preamble == old(s.preamble)
    ensures Paced(s, old(s.paused), old(s.writes), Resume)
  {
    hide EncodeAll, DataOf, Encodings, Sendable, ControlsOf, Encode;
    ghost var w, b, q := s.wire, s.sent, s.queued;
    assert ControlsOf(w) + [] == ControlsOf(w) && b + [] == b;
    s.ResumeWriting();
    ControlsGrow(w, q);
  }

  method PerformClose(s: Sender, op: Op)
    requires s.Valid() && OpOk(s.compress, op) && (op.CloseLocally? || op.Violation? || op.Gone?)
    modifies s
    ensures Advanced(s, old(ModeOf(s)), old(s.wire), old(s.sent), op) && s.preamble == old(s.preamble) && s.closed
    ensures Paced(s, old(s.paused), old(s.writes), op)
  {
    hide EncodeAll, DataOf, Encodings, Pow256, Sendable, ControlsOf, Encode, ToBigEndian;
    ghost var w, b := s.wire, s.sent;
    assert ControlsOf(w) + [] == ControlsOf(w) && b + [] == b && w + [] == w;
    if op.CloseLocally? {
      s.Close();
      ControlsGrow(w, [CLOSE_FRAME]);
    } else if op.Violation? {
      s.FailConnection(op.code, op.mask);
      ControlsGrow(w, [CloseFrame(op.code, op.mask)]);
    } else {
      s.Lose();
    }
  }

  method PerformQuiet(s: Sender, op: Op)
    requires s.Valid() && (op.Handshake? || op.Pause? || op.DrainSome?)
    modifies s
    ensures Advanced(s, old(ModeOf(s)), old(s.wire), old(s.sent), op) && s.preamble == old(s.preamble)
    ensures Paced(s, old(s.paused), old(s.writes), op)
  {
    hide EncodeAll, DataOf, Encodings, Sendable, ControlsOf, Encode;
    assert ControlsOf(s.wire) + [] == ControlsOf(s.wire) && s.sent + [] == s.sent;
    match op
    case Handshake(c) => s.CompleteHandshake(c);
    case Pause => s.PauseWriting();
    case DrainSome => s.Drain();
  }

  method Perform(s: Sender, op: Op)
    requires s.Valid() && OpOk(s.compress, op)
    modifies s
    ensures Advanced(s, old(ModeOf(s)), old(s.wire), old(s.sent), op) && s.preamble == old(s.preamble)
    ensures Paced(s, old(s.paused), old(s.writes), op)
  {
    hide Advanced, OpOk;
    match op
    case Message(_, _) => PerformMessage(s, op);
    case Control(_, _, _) => PerformControl(s, op);
    case Answer(_, _, _) => PerformAnswer(s, op);
    case Resume => PerformResume(s);
    case Handshake(_) => PerformQuiet(s, op);
    case Pause => PerformQuiet(s, op);
    case DrainSome => PerformQuiet(s, op);
    case _ => PerformClose(s, op);
  }

  /** What a run of operations leads to. */
  ghost predicate RunDone(s: Sender, m: Mode, w: seq<WireFrame>, b: seq<WireFrame>, ops: seq<Op>)
    reads s
  {
    && s.Valid() && ModeOf(s) == ModeAfter(m, ops)
    && s.sent == b + SentIn(s.compress, m, ops)
    && w <= s.wire && ControlsOf(s.wire) == ControlsOf(w) + ControlsIn(m, ops)
  }

  lemma {:induction false} RunStarts(s: Sender)
    requires s.Valid()
    ensures RunDone(s, ModeOf(s), s.wire, s.sent, [])
  {
    hide EncodeAll, DataOf, Encodings, Sendable, ControlsOf;
  }

  /** One more operation. */
  lemma {:induction false} RunNext(
    s: Sender, m: Mode, w: seq<WireFrame>, b: seq<WireFrame>,
    ops: seq<Op>, i: nat, w1: seq<WireFrame>, b1: seq<WireFrame>)
    requires i < |ops| && Advanced(s, ModeAfter(m, ops[..i]), w1, b1, ops[i])
    requires b1 == b + SentIn(s.compress, m, ops[..i]) && w <= w1
    requires ControlsOf(w1) == ControlsOf(w) + ControlsIn(m, ops[..i])
    ensures RunDone(s, m, w, b, ops[..i + 1])
  {
    var before, now := ops[..i], ops[..i + 1];
    assert now[..i] == before && now[i] == ops[i] && |now| - 1 == i;
    hide EncodeAll, DataOf, Encodings, Sendable, ControlsOf, SentBy, ControlsBy, NextMode;
    ConcatAssociative(b, SentIn(s.compress, m, before), SentBy(s.compress, ModeAfter(m, before), ops[i]));
    ConcatAssociative(ControlsOf(w), ControlsIn(m, before), ControlsBy(ModeAfter(m, before), ops[i]));
  }

  // ---- what the peer is meant to see, from the calls alone ----

  /** No earlier operation closed the connection. */
  ghost predicate OpenBefore(open: bool, ops: seq<Op>, i: nat)
    requires i <= |ops|
  {
    open && forall j :: 0 <= j < i ==>
      !ops[j].CloseLocally? && !ops[j].Violation? && !ops[j].Gone? && !(ops[j].Answer? && ops[j].peerClose)
  }

  ghost predicate DoneBefore(done: bool, ops: seq<Op>, i: nat)
    requires i <= |ops|
  {
    done || exists j :: 0 <= j < i && ops[j].Handshake?
  }

  ghost predicate DeflateBefore(deflate: bool, ops: seq<Op>, i: nat)
    requires i <= |ops|
  {
    deflate && forall j :: 0 <= j < i && ops[j].Handshake? ==> ops[j].compressionAccepted
  }

  /** The frame a message asks for: text is opcode 1, binary opcode 2, RSV1 marks compression. */
  ghost function Wanted(compress: bytes -> bytes, deflate: bool, message: Outgoing): seq<Clear> {
    match message
    case Text(utf8) => [Clear(1, deflate, if deflate then compress(utf8) else utf8)]
    case Binary(data) => [Clear(2, deflate, if deflate then compress(data) else data)]
    case Unsupported => []
  }

  /** The frames of all send() calls made while connected. */
  ghost function WantedIn(compress: bytes -> bytes, m: Mode, ops: seq<Op>): seq<Clear> {
    if ops == [] then []
    else
      var n := |ops| - 1;
      WantedIn(compress, m, ops[..n]) +
      if ops[n].Message? && OpenBefore(m.open, ops, n) && DoneBefore(m.done, ops, n) then
        Wanted(compress, DeflateBefore(m.deflate, ops, n), ops[n].message)
      else []
  }

  /** The text and binary frames of a list. */
  ghost function DataIn(cs: seq<Clear>): seq<Clear> {
    if cs == [] then []
    else DataIn(cs[..|cs| - 1]) +
         if cs[|cs| - 1].opcode == 1 || cs[|cs| - 1].opcode == 2 then [cs[|cs| - 1]] else []
  }

  /** All other frames of a list. */
  ghost function ControlIn(cs: seq<Clear>): seq<Clear> {
    if cs == [] then []
    else ControlIn(cs[..|cs| - 1]) +
         if cs[|cs| - 1].opcode == 1 || cs[|cs| - 1].opcode == 2 then [] else [cs[|cs| - 1]]
  }

  /** A reply carries the Ping's payload, or its first 125 bytes. */
  ghost function ReplyTo(ping: bytes): Clear { Clear(10, false, if |ping| <= 125 then ping else ping[..125]) }

  ghost function RepliesTo(pings: seq<bytes>): seq<Clear> {
    seq(|pings|, i requires 0 <= i < |pings| => ReplyTo(pings[i]))
  }

  /** The control frames an operation asks for: Pong is opcode 10, Close opcode 8 with a
      two-byte code or nothing. */
  ghost function WantedControls(op: Op): seq<Clear> {
    match op
    case Answer(pings, _, _) => RepliesTo(pings)
    case Control(opcode, payload, _) => if |payload| <= 125 then [Clear(opcode, false, payload)] else []
    case CloseLocally => [Clear(8, false, [])]
    case Violation(code, _) => if code < 0x1_0000 then [Clear(8, false, [code / 256, code % 256])] else []
    case _ => []
  }

  ghost function WantedControlsIn(open: bool, ops: seq<Op>): seq<Clear> {
    if ops == [] then []
    else
      var n := |ops| - 1;
      WantedControlsIn(open, ops[..n]) + if OpenBefore(open, ops, n) then WantedControls(ops[n]) else []
  }

  lemma {:induction false} ModeIs(m: Mode, ops: seq<Op>, i: nat)
    requires i <= |ops|
    ensures ModeAfter(m, ops[..i]) ==
            Mode(OpenBefore(m.open, ops, i), DoneBefore(m.done, ops, i), DeflateBefore(m.deflate, ops, i))
  {
    if i > 0 {
      ModeIs(m, ops, i - 1);
      assert ops[..i][..i - 1] == ops[..i - 1];
    }
  }

  lemma {:induction false} AllInClearConcat(a: seq<WireFrame>, b: seq<WireFrame>)
    ensures AllInClear(a + b) == AllInClear(a) + AllInClear(b)
  {
    hide InClear;
  }

  /** The frames sent are those wanted. */
  lemma {:induction false} SentIsWanted(compress: bytes -> bytes, m: Mode, ops: seq<Op>)
    ensures AllInClear(SentIn(compress, m, ops)) == WantedIn(compress, m, ops)
  {
    if ops != [] {
      var n := |ops| - 1;
      SentIsWanted(compress, m, ops[..n]);
      ModeIs(m, ops, n);
      SentOneIsWanted(compress, ModeAfter(m, ops[..n]), ops[n]);
      hide AllInClear, SentBy, Wanted, ModeAfter, OpenBefore, DoneBefore, DeflateBefore;
      AllInClearConcat(SentIn(compress, m, ops[..n]), SentBy(compress, ModeAfter(m, ops[..n]), ops[n]));
    }
  }

  lemma {:induction false} SentOneIsWanted(compress: bytes -> bytes, m: Mode, op: Op)
    ensures AllInClear(SentBy(compress, m, op)) ==
            if op.Message? && m.open && m.done then Wanted(compress, m.deflate, op.message) else []
  {
  }

  lemma {:induction false} ClearLast(fs: seq<WireFrame>)
    requires fs != []
    ensures var n, c := |fs| - 1, AllInClear(fs);
            && |c| == |fs| && c[..n] == AllInClear(fs[..n]) && c[n] == InClear(fs[n])
            && AllInClear([fs[n]]) == [InClear(fs[n])] && AllInClear([]) == []
  {
    hide InClear;
  }

  lemma {:induction false} DataInClear(fs: seq<WireFrame>)
    ensures DataIn(AllInClear(fs)) == AllInClear(DataOf(fs))
  {
    if fs != [] {
      var n := |fs| - 1;
      var rest, last := DataOf(fs[..n]), if IsData(fs[n]) then [fs[n]] else [];
      DataInClear(fs[..n]);
      ClearLast(fs);
      hide AllInClear;
      AllInClearConcat(rest, last);
    }
  }

  lemma {:induction false} ControlInClear(fs: seq<WireFrame>)
    ensures ControlIn(AllInClear(fs)) == AllInClear(ControlsOf(fs))
  {
    if fs != [] {
      var n := |fs| - 1;
      var rest, last := ControlsOf(fs[..n]), if IsData(fs[n]) then [] else [fs[n]];
      ControlInClear(fs[..n]);
      ClearLast(fs);
      hide AllInClear;
      AllInClearConcat(rest, last);
    }
  }

  lemma {:induction false} TwoByteCode(code: nat)
    requires code < 0x1_0000
    ensures ToBigEndian(code, 2) == [code / 256, code % 256]
  {
    assert ToBigEndian(code / 256, 1) == ToBigEndian(code / 256 / 256, 0) + [code / 256 % 256];
  }

  lemma {:induction false} RepliesInClear(pings: seq<bytes>, masks: seq<bytes>)
    requires |pings| == |masks|
    ensures AllInClear(Pongs(pings, masks)) == RepliesTo(pings)
  {
    forall i | 0 <= i < |pings| ensures InClear(Pongs(pings, masks)[i]) == ReplyTo(pings[i]) {
      assert pings[i][..|pings[i]|] == pings[i];
    }
  }

  lemma {:induction false} ControlsAreWanted(compress: bytes -> bytes, m: Mode, op: Op)
    requires OpOk(compress, op)
    ensures AllInClear(ControlsBy(m, op)) == if m.open then WantedControls(op) else []
  {
    if op.Answer? { RepliesInClear(op.pings, op.masks); }
    if op.Violation? { TwoByteCode(op.code); }
    hide ToBigEndian, Pongs, RepliesTo;
  }

  lemma {:induction false} ControlsInAreWanted(compress: bytes -> bytes, m: Mode, ops: seq<Op>)
    requires forall op :: op in ops ==> OpOk(compress, op)
    ensures AllInClear(ControlsIn(m, ops)) == WantedControlsIn(m.open, ops)
  {
    if ops != [] {
      var n := |ops| - 1;
      ControlsInAreWanted(compress, m, ops[..n]);
      ModeIs(m, ops, n);
      ControlsAreWanted(compress, ModeAfter(m, ops[..n]), ops[n]);
      hide AllInClear, ControlsBy, WantedControls, ModeAfter, OpenBefore, DoneBefore, DeflateBefore, OpOk;
      AllInClearConcat(ControlsIn(m, ops[..n]), ControlsBy(ModeAfter(m, ops[..n]), ops[n]));
    }
  }

  lemma {:induction false} FlattenEncodings(fs: seq<WireFrame>)
    requires AllSendable(fs)
    ensures Flatten(Encodings(fs)) == EncodeAll(fs)
  {
    hide Encode, Sendable;
    if fs != [] {
      FlattenEncodings(fs[1..]);
      assert Encodings(fs)[1..] == Encodings(fs[1..]);
    }
  }

  lemma {:induction false} InClearPrefix(a: seq<WireFrame>, b: seq<WireFrame>)
    requires a <= b
    ensures AllInClear(a) <= AllInClear(b)
  {
    assert b == a + b[|a|..];
    AllInClearConcat(a, b[|a|..]);
  }

  /** Of the bytes written the peer decodes these data frames, up to those that wait in the
      queue or were dropped with it, and these control frames. */
  ghost predicate PeerSees(s: Sender, data: seq<Clear>, controls: seq<Clear>)
    reads s
  {
    && |s.preamble| <= |s.socket + s.transportBuf|
    && var seen := DecodeAll((s.socket + s.transportBuf)[|s.preamble|..]);
       var waiting := DecodeAll(Flatten(s.writeQueue));
       && seen.Some? && waiting.Some?
       && (s.closed ==> DataIn(seen.value) <= data)
       && (!s.closed ==> DataIn(seen.value) + waiting.value == data)
       && ControlIn(seen.value) == controls
  }

  lemma {:induction false} PeerSeesSent(s: Sender)
    requires s.Valid()
    ensures PeerSees(s, AllInClear(s.sent), AllInClear(ControlsOf(s.wire)))
  {
    s.PeerDecodes();
    hide DecodeAll, AllInClear, DataOf, ControlsOf, Encodings, EncodeAll, DataIn, ControlIn, Sendable;
    DataInClear(s.wire);
    ControlInClear(s.wire);
    FlattenEncodings(s.queued);
    DecodeEncodeAll(s.queued);
    AllInClearConcat(DataOf(s.wire), s.queued);
    if s.closed { InClearPrefix(DataOf(s.wire), s.sent); }
  }

  /** What the peer decodes, and what the queue holds, is what the calls asked for. */
  lemma {:induction false} PeerSeesWanted(s: Sender, m: Mode, w: seq<WireFrame>, b: seq<WireFrame>, ops: seq<Op>)
    requires RunDone(s, m, w, b, ops) && forall op :: op in ops ==> OpOk(s.compress, op)
    ensures PeerSees(s, AllInClear(b) + WantedIn(s.compress, m, ops),
                     ControlIn(AllInClear(w)) + WantedControlsIn(m.open, ops))
  {
    hide PeerSees, DecodeAll, AllInClear, DataOf, Encodings, EncodeAll, SentIn, WantedIn, DataIn, Sendable, OpOk;
    hide ControlIn, ControlsOf, ControlsIn, WantedControlsIn, ModeAfter;
    PeerSeesSent(s);
    SentIsWanted(s.compress, m, ops);
    AllInClearConcat(b, SentIn(s.compress, m, ops));
    ControlInClear(w);
    ControlsInAreWanted(s.compress, m, ops);
    AllInClearConcat(ControlsOf(w), ControlsIn(m, ops));
  }

  /**
   Wire integrity over every run: whatever the calls, partial socket writes,
   pauses and drains, the peer decodes exactly the frames handed over, whole and
   in order. The text and binary frames among them, followed by those waiting in the
   queue, are the messages of all send() calls made while connected, in order; after a
   close they are a prefix of those. The control frames are exactly those the run calls
   for, in order. Writing is paused only by request or by a write of the transport.
   */
  method Execute(s: Sender, ops: seq<Op>)
    requires s.Valid() && forall op :: op in ops ==> OpOk(s.compress, op)
    modifies s
    ensures s.Valid() && s.preamble == old(s.preamble)
    ensures DecodeAll((s.socket + s.transportBuf)[|s.preamble|..]) == Some(AllInClear(s.wire))
    ensures PeerSees(s, AllInClear(old(s.sent)) + WantedIn(s.compress, old(ModeOf(s)), ops),
                     ControlIn(AllInClear(old(s.wire))) + WantedControlsIn(old(ModeOf(s)).open, ops))
    ensures s.sent == old(s.sent) + SentIn(s.compress, old(ModeOf(s)), ops)
    ensures if s.closed then DataOf(s.wire) <= s.sent else DataOf(s.wire) + s.queued == s.sent
    ensures s.writeQueue == Encodings(s.queued) && (!s.paused ==> s.writeQueue == [])
    ensures s.paused ==> old(s.paused) || Pause in ops || s.Congested(old(s.writes), s.writes)
    ensures old(s.wire) <= s.wire && ControlsOf(s.wire) == ControlsOf(old(s.wire)) + ControlsIn(old(ModeOf(s)), ops)
  {
    ghost var m, w, b := ModeOf(s), s.wire, s.sent;
    hide Advanced, OpOk, ControlsOf, SentIn, ControlsIn, ModeAfter, EncodeAll, DataOf, Encodings, Sendable;
    RunStarts(s);
    for i := 0 to |ops|
      invariant RunDone(s, m, w, b, ops[..i]) && s.preamble == old(s.preamble) && old(s.writes) <= s.writes
      invariant s.paused ==> old(s.paused) || Pause in ops || s.Congested(old(s.writes), s.writes)
    {
      assert ops[i] in ops;
      ghost var w1, b1 := s.wire, s.sent;
      Perform(s, ops[i]);
      RunNext(s, m, w, b, ops, i, w1, b1);
    }
    assert ops[..|ops|] == ops;
    hide PeerSees, DecodeAll, DataIn, ControlIn, WantedIn, WantedControlsIn, AllInClear;
    s.PeerDecodes();
    PeerSeesWanted(s, m, w, b, ops);
  }

  const CLOSE_FRAME := WireFrame(OP_CLOSE, false, [], [0, 0, 0, 0])

  lemma {:induction false} CloseFrameBytes()
    ensures Sendable(CLOSE_FRAME) && Encode(CLOSE_FRAME) == [0x88, 0x80, 0, 0, 0, 0]
  {
    assert Masked([], [0, 0, 0, 0]) == [];
  }

  lemma {:induction false} ControlSendable(f: WireFrame)
    requires f.opcode < 16 && |f.mask| == 4 && |f.payload| <= 125
    ensures Sendable(f)
  {
    assert Pow256(8) == 256 * Pow256(7);
    assert Pow256(7) >= 1;
  }

  /** The Pong frames that answer `pings`, each payload cut to the control-frame limit. */
  ghost function Pongs(pings: seq<bytes>, masks: seq<bytes>): seq<WireFrame>
    requires |pings| == |masks|
  {
    seq(|pings|, i requires 0 <= i < |pings| => WireFrame(OP_PONG, false, pings[i][..Min(|pings[i]|, 125)], masks[i]))
  }

  lemma {:induction false} PongsAreControls(pings: seq<bytes>, masks: seq<bytes>)
    requires |pings| == |masks|
    ensures forall f :: f in Pongs(pings, masks) ==> !IsData(f)
  {
  }

  lemma {:induction false} PongsSendable(pings: seq<bytes>, masks: seq<bytes>)
    requires |pings| == |masks| && forall m :: m in masks ==> |m| == 4
    ensures AllSendable(Pongs(pings, masks))
  {
    forall i | 0 <= i < |pings| ensures Sendable(Pongs(pings, masks)[i]) {
      ControlSendable(Pongs(pings, masks)[i]);
    }
  }

  lemma {:induction false} NoEncodings()
    ensures Encodings([]) == []
  {
  }

  lemma {:induction false} FirstOfQueue(fs: seq<WireFrame>)
    requires AllSendable(fs) && Encodings(fs) != []
    ensures fs != [] && Encodings(fs)[0] == Encode(fs[0]) && Encodings(fs)[1..] == Encodings(fs[1..])
    ensures fs == [fs[0]] + fs[1..]
  {
    assert |Encodings(fs)| == |fs|;
  }

  lemma {:induction false} SendableFrame(f: WireFrame)
    requires f.opcode < 16 && |f.mask| == 4 && |f.payload| < Pow256(8)
    ensures Sendable(f)
  {
  }

  lemma {:induction false} QueueEmpty(fs: seq<WireFrame>)
    requires AllSendable(fs) && Encodings(fs) == []
    ensures fs == []
  {
    assert |Encodings(fs)| == |fs|;
  }

  lemma {:induction false} QueueAppends(fs: seq<WireFrame>, f: WireFrame)
    requires AllSendable(fs) && Sendable(f)
    ensures AllSendable(fs + [f]) && Encodings(fs + [f]) == Encodings(fs) + [Encode(f)]
  {
  }

  lemma {:induction false} WireAppends(preamble: bytes, fs: seq<WireFrame>, f: WireFrame)
    requires AllSendable(fs) && Sendable(f)
    ensures AllSendable(fs + [f])
    ensures preamble + EncodeAll(fs + [f]) == (preamble + EncodeAll(fs)) + Encode(f)
    ensures DataOf(fs + [f]) == DataOf(fs) + if IsData(f) then [f] else []
  {
    EncodeAllAppend(fs, f);
    DataOfAppend(fs, f);
  }
}
