/**
 The receive side of the client: two parsers over one byte stream, the buffers
 between them, and the proof that every way of reading the stream in chunks has
 the effects of one run over the whole stream.
 */
module Receive {
  import opened Common
  import opened Codec
  import opened Protocol
  import opened FastPath
  import Fragments

  class NativeClient {
    const env: Env
    const offered: bool

    // Slow parser.
    var buf: bytes
    var handshakeDone: bool
    var deflate: bool
    var fragmentBuf: Option<bytes>
    var fragmentOpcode: nat
    var fragmentRsv1: bool
    // Buffered-protocol path.
    var recvBuf: bytes
    var nextFrameNeeded: Option<nat>
    // What the client has done so far.
    var fx: Effects

    /** Every byte received. */
    ghost var stream: bytes

    constructor (env: Env, compression: bool)
      ensures this.env == env && offered == compression
      ensures stream == [] && recvBuf == [] && fx == NO_EFFECTS && Idle()
    {
      this.env, offered := env, compression;
      buf, handshakeDone, deflate := [], false, compression;
      fragmentBuf, fragmentOpcode, fragmentRsv1 := None, 0, false;
      recvBuf, nextFrameNeeded := [], None;
      fx := NO_EFFECTS;
      stream := [];
    }

    ghost function State(): Core
      reads this
    {
      Core(handshakeDone, deflate, fragmentBuf, fragmentOpcode, fragmentRsv1)
    }

    /** The one run over the whole stream that the client must agree with. */
    ghost function Whole(): Outcome
      reads this
    {
      Run(env, InitCore(offered), stream)
    }

    /** Still to be done: what a run over `x` from the current state does. */
    ghost predicate Owes(x: bytes)
      reads this
    {
      var o := Run(env, State(), x);
      && fx.terminal.None?
      && Project(Whole().events) == Join(fx, Project(o.events))
      && Whole().core == o.core && Whole().rest == o.rest
    }

    /** Nothing can be done with `x` before more bytes arrive. */
    ghost predicate Stuck(x: bytes)
      reads this
    {
      Owes(x) && Step1(env, State(), x).NeedMore?
    }

    /** A terminal event has been handled, and all effects up to it have happened. */
    ghost predicate Finished()
      reads this
    {
      fx.terminal.Some? && fx == Project(Whole().events)
    }

    /** Between reads: all bytes are parsed as far as possible, and only one of
        the two buffers carries a remainder. */
    ghost predicate Idle()
      reads this
    {
      && Stuck(buf + recvBuf)
      && (recvBuf != [] ==> Aligned(State()) && buf == [])
      && (nextFrameNeeded.Some? ==>
            WalkFrom(recvBuf, 0) == Walked([], Partial(0, nextFrameNeeded.value)) && recvBuf != [])
    }

    ghost predicate Valid()
      reads this
    {
      Finished() || Idle()
    }

    // ---- handshake and slow parser ----

    method ProcessHandshake() returns (outcome: Option<Event>)
      requires !handshakeDone
      modifies this`buf, this`handshakeDone, this`deflate
      ensures outcome.None? ==> Step1(env, State(), buf).NeedMore? && buf == old(buf) && State() == old(State())
      ensures outcome.Some? ==>
                var s := Step1(env, old(State()), old(buf));
                && s.Advance? && s.core == State() && s.event == outcome && buf == old(buf)[s.taken..]
                && (handshakeDone <==> !Terminal(outcome.value)) && (outcome.value.Accepted? || outcome.value.Rejected?)
    {
      match FindHeaderEnd(buf)
      case None => outcome := None;
      case Some(end) =>
        var verdict := env.judge(buf[..end]);
        buf := buf[end..];
        match verdict
        case Reject(status) => outcome := Some(Rejected(status));
        case Accept(subprotocol, accepted) =>
          handshakeDone := true;
          deflate := deflate && accepted;
          outcome := Some(Accepted(subprotocol, deflate));
    }

    /** Dispatch on the opcode of the whole frame at the front of `buf`. */
    method TakeFrame(h: Header) returns (event: Option<Event>)
      requires handshakeDone && ParseHeader(buf) == Some(h)
      requires h.plen <= MAX_FRAME_SIZE && h.hdr + h.plen <= |buf|
      modifies this`buf, this`fragmentBuf, this`fragmentOpcode, this`fragmentRsv1
      ensures var s := FrameStep(env, old(State()), h, old(buf)[h.hdr..h.hdr + h.plen]);
              s.core == State() && s.event == event && s.taken <= |old(buf)| && buf == old(buf)[s.taken..]
      ensures event.None? || !Terminal(event.value) ==> |buf| + 2 <= |old(buf)|
    {
      var Header(fin, rsv1, opcode, plen, hdr) := h;
      var payload := buf[hdr..hdr + plen];
      event := None;
      if opcode == OP_TEXT || opcode == OP_BINARY {
        if fragmentBuf.Some? { return Some(Fail(DataDuringFragment)); }
        buf := buf[hdr + plen..];
        if fin { return Some(Finish(env, deflate, rsv1, payload)); }
        fragmentBuf, fragmentOpcode, fragmentRsv1 := Some(payload), opcode, rsv1;
      } else if opcode == OP_CONTINUATION {
        if fragmentBuf.None? { return Some(Fail(StrayContinuation)); }
        if |fragmentBuf.value| + plen > MAX_MESSAGE_SIZE { return Some(Fail(MessageTooBig)); }
        buf := buf[hdr + plen..];
        fragmentBuf := Some(fragmentBuf.value + payload);
        if fin {
          var raw, compressed := fragmentBuf.value, fragmentRsv1;
          fragmentBuf, fragmentOpcode, fragmentRsv1 := None, 0, false;
          return Some(Finish(env, deflate, compressed, raw));
        }
      } else if opcode == OP_CLOSE {
        buf := buf[hdr + plen..];
        return Some(ParseClosePayload(payload));
      } else if opcode == OP_PING {
        buf := buf[hdr + plen..];
        return Some(SendPong(payload));
      } else if opcode == OP_PONG {
        buf := buf[hdr + plen..];
        return Some(Pong(payload));
      } else {
        buf := buf[hdr + plen..];
      }
    }

    /** The next event the buffered frames give, skipping frames that give none. */
    method NextEvent() returns (event: Option<Event>)
      requires handshakeDone
      modifies this`buf, this`fragmentBuf, this`fragmentOpcode, this`fragmentRsv1
      ensures event.None? ==> Run(env, old(State()), old(buf)) == Outcome([], State(), buf)
      ensures event.None? ==> Step1(env, State(), buf).NeedMore?
      ensures event.Some? && !Terminal(event.value) ==>
                && Run(env, old(State()), old(buf)) == Prepend([event.value], Run(env, State(), buf))
                && |buf| + 2 <= |old(buf)|
      ensures event.Some? && Terminal(event.value) ==>
                Run(env, old(State()), old(buf)) == Outcome([event.value], State(), buf)
    {
      hide ParseHeader, FrameStep, Run;
      while true
        invariant handshakeDone
        invariant Run(env, State(), buf) == Run(env, old(State()), old(buf))
        invariant |buf| <= |old(buf)|
        decreases |buf|
      {
        ghost var s := Step1(env, State(), buf);
        RunUnfold(env, State(), buf, s);
        match ParseHeader(buf)
        case None => return None;
        case Some(h) =>
          if h.plen > MAX_FRAME_SIZE { return Some(Fail(FrameTooBig)); }
          if |buf| < h.hdr + h.plen { return None; }
          event := TakeFrame(h);
          if event.Some? { return; }
      }
    }

    /** Effects of one protocol event; a terminal one stops the loop. */
    method HandleProtocolEvent(event: Event) returns (stop: bool)
      modifies this`fx
      ensures fx == Apply(old(fx), event)
      ensures stop <==> Terminal(event)
      ensures old(fx).terminal.None? ==> (fx.terminal.Some? <==> stop)
    {
      match event
      case Message(payload) => fx := fx.(messages := fx.messages + [payload]); stop := false;
      case Pong(payload) => fx := fx.(acks := fx.acks + [payload]); stop := false;
      case SendPong(payload) => fx := fx.(replies := fx.replies + [Cut(payload)]); stop := false;
      case Accepted(_, _) => fx := fx.(accepted := fx.accepted + [event]); stop := false;
      case _ => fx := fx.(terminal := if fx.terminal.Some? then fx.terminal else Some(event)); stop := true;
    }

    /** Complete the handshake if it is still open, then drain `buf`. */
    method ProcessBufferedFrames()
      requires Owes(buf)
      modifies this`buf, this`handshakeDone, this`deflate, this`fragmentBuf, this`fragmentOpcode, this`fragmentRsv1,
        this`fx
      ensures Finished() || Stuck(buf)
    {
      hide Run, Step1, Project, Join, Apply, Terminal;
      ghost var c, x, y := State(), buf, fx;
      if !handshakeDone {
        RunUnfold(env, c, x, Step1(env, c, x));
        var outcome := ProcessHandshake();
        if outcome.None? { return; }
        var stop := HandleProtocolEvent(outcome.value);
        if stop {
          JoinApply(y, outcome.value);
          return;
        }
        PayEvent(y, outcome.value, Run(env, State(), buf).events);
      }
      while true
        invariant handshakeDone && Owes(buf)
        decreases |buf|
      {
        y := fx;
        var event := NextEvent();
        if event.None? { break; }
        var stop := HandleProtocolEvent(event.value);
        if stop {
          JoinApply(y, event.value);
          return;
        }
        PayEvent(y, event.value, Run(env, State(), buf).events);
      }
      RunUnfold(env, State(), buf, Step1(env, State(), buf));
    }

    // ---- fast path ----

    predicate FastPathEligible()
      reads this
    {
      handshakeDone && buf == [] && fragmentBuf.None?
    }

    /** The visitor: a message is delivered at once, a Pong reply or an
        acknowledgment is queued. */
    method VisitFrame(frame: FastFrame, pongs: seq<bytes>, acks: seq<bytes>)
      returns (pongs': seq<bytes>, acks': seq<bytes>)
      requires frame.opcode != OP_CLOSE
      modifies this`fx
      ensures Queued(fx, pongs', acks') == Join(Queued(old(fx), pongs, acks), Project(FastEvent(frame)))
      ensures fx.terminal == old(fx).terminal
    {
      hide FastEvent, Join, Project, Queued;
      QueueVisit(fx, pongs, acks, frame);
      pongs', acks' := pongs, acks;
      if frame.opcode == OP_TEXT || frame.opcode == OP_BINARY {
        fx := fx.(messages := fx.messages + [frame.payload]);
      } else if frame.opcode == OP_PING {
        pongs' := pongs + [Cut(frame.payload)];
      } else if frame.opcode == OP_PONG {
        acks' := acks + [frame.payload];
      }
    }

    /** The frame walk with its visitor: messages are delivered at once, Pong
        replies and acknowledgments are collected, the first Close stops it. */
    method WalkFrames(data: bytes)
      returns (outcome: ScanOutcome, pongs: seq<bytes>, acks: seq<bytes>, closed: Option<Event>)
      requires fx.terminal.None?
      modifies this`fx
      ensures outcome == WalkOutcome(data, 0) && fx.terminal.None?
      ensures closed.Some? <==> outcome.Stopped?
      ensures closed.Some? ==> closed.value.Close?
      ensures (if closed.Some? then Apply(Queued(fx, pongs, acks), closed.value) else Queued(fx, pongs, acks)) ==
              Join(old(fx), WalkEffects(data, 0))
    {
      var off := 0;
      pongs, acks, closed := [], [], None;
      assert Queued(fx, [], []) == fx;
      hide *;
      while true
        invariant off <= |data| && closed.None? && fx.terminal.None?
        invariant WalkOutcome(data, 0) == WalkOutcome(data, off)
        invariant Join(old(fx), WalkEffects(data, 0)) == Join(Queued(fx, pongs, acks), WalkEffects(data, off))
        decreases |data| - off
      {
        WalkHere(data, off);
        ghost var q := Queued(fx, pongs, acks);
        JoinNothing(q);
        match LookAt(data, off)
        case Stop(why) => return why, pongs, acks, None;
        case Visit(frame, next) =>
          off := next;
          if frame.opcode == OP_CLOSE {
            var event := ParseClosePayload(frame.payload);
            JoinApply(q, event);
            return Stopped(off), pongs, acks, Some(event);
          }
          pongs, acks := VisitFrame(frame, pongs, acks);
          JoinAssociative(q, Project(FastEvent(frame)), WalkEffects(data, off));
      }
    }

    /** One pass over frame-aligned `data`. Acknowledgments and replies follow the
        walk; a Close is applied last. */
    method ScanFrameAligned(data: bytes) returns (outcome: ScanOutcome)
      requires FastPathEligible() && Owes(data)
      modifies this`fx
      ensures outcome == WalkFrom(data, 0).outcome
      ensures outcome.Stopped? ==> Finished()
      ensures !outcome.Stopped? ==> Owes(data[outcome.consumed..])
      ensures outcome.Exhausted? || outcome.Partial? ==> Stuck(data[outcome.consumed..])
    {
      hide Run, Step1, WalkFrom, Project, Join, Apply, FastEvents;
      ghost var y := fx;
      var pongs, acks, closed;
      outcome, pongs, acks, closed := WalkFrames(data);
      fx := fx.(acks := fx.acks + acks);
      fx := fx.(replies := fx.replies + pongs);
      assert data[0..] == data;
      WalkRefinesRun(env, State(), data, 0);
      PayEvents(y, FastEvents(WalkFrom(data, 0).frames), Run(env, State(), data[outcome.consumed..]).events);
      if closed.Some? { var _ := HandleProtocolEvent(closed.value); }
    }

    /** Park what the scan left in `buf` and let the slow parser have it. */
    method ParkTailAndDrain(outcome: ScanOutcome, data: bytes)
      requires outcome == WalkFrom(data, 0).outcome && FastPathEligible()
      requires outcome.Stopped? ==> Finished()
      requires !outcome.Stopped? ==> Owes(data[outcome.consumed..])
      requires outcome.Exhausted? || outcome.Partial? ==> Stuck(data[outcome.consumed..])
      modifies this`buf, this`handshakeDone, this`deflate, this`fragmentBuf, this`fragmentOpcode, this`fragmentRsv1,
        this`fx
      ensures Finished() || Stuck(buf)
    {
      hide Run, Step1, Project, Join;
      if outcome.Stopped? { return; }
      var consumed := outcome.consumed;
      if consumed < |data| {
        buf := buf + data[consumed..];
        assert buf == data[consumed..];
        ProcessBufferedFrames();
      } else {
        assert data[consumed..] == [];
        NothingToDo(env, State());
      }
    }

    method DataReceivedInner(data: bytes)
      requires Owes(buf + data)
      modifies this`buf, this`handshakeDone, this`deflate, this`fragmentBuf, this`fragmentOpcode, this`fragmentRsv1,
        this`fx
      ensures Finished() || Stuck(buf)
    {
      hide Run, Step1, Project, Join, WalkFrom;
      if FastPathEligible() {
        assert buf + data == data;
        var outcome := ScanFrameAligned(data);
        ParkTailAndDrain(outcome, data);
        return;
      }
      buf := buf + data;
      ProcessBufferedFrames();
    }

    method DataReceivedInnerPyBytes(data: bytes)
      requires Owes(buf + data)
      modifies this`buf, this`handshakeDone, this`deflate, this`fragmentBuf, this`fragmentOpcode, this`fragmentRsv1,
        this`fx
      ensures Finished() || Stuck(buf)
    {
      hide Run, Step1, Project, Join, WalkFrom;
      if !FastPathEligible() {
        DataReceivedInner(data);
        return;
      }
      assert buf + data == data;
      var outcome := ScanFrameAligned(data);
      ParkTailAndDrain(outcome, data);
    }

    /** Parse the region split off `recvBuf`; the caller carries the remainder back. */
    method ParseRecvData(owner: bytes) returns (consumed: nat, needed: Option<nat>)
      requires Owes(buf + owner)
      modifies this`buf, this`handshakeDone, this`deflate, this`fragmentBuf, this`fragmentOpcode, this`fragmentRsv1,
        this`fx
      ensures consumed <= |owner|
      ensures Finished() || Stuck(buf + owner[consumed..])
      ensures !Finished() && consumed < |owner| ==> FastPathEligible()
      ensures !Finished() && needed.Some? ==>
                && WalkFrom(owner[consumed..], 0) == Walked([], Partial(0, needed.value))
                && |owner[consumed..]| < needed.value <= MAX_FRAME_SIZE + 10
                && consumed < |owner|
    {
      hide Run, Step1, Project, Join, ParseHeader;
      if !FastPathEligible() {
        DataReceivedInner(owner);
        assert owner[|owner|..] == [] && buf + [] == buf;
        return |owner|, None;
      }
      assert buf + owner == owner;
      var outcome := ScanFrameAligned(owner);
      Rescan(owner, 0);
      assert buf + owner[outcome.consumed..] == owner[outcome.consumed..];
      match outcome
      case Exhausted(n) => consumed, needed := n, None;
      case Stopped(n) => consumed, needed := n, None;
      case Partial(n, want) => consumed, needed := n, Some(want); 
      case Fallback(n) =>
        DataReceivedInner(owner[n..]);
        assert owner[|owner|..] == [] && buf + [] == buf;
        consumed, needed := |owner|, None;
    }

    // ---- entry points ----

    /** Bytes join the stream; between reads this only adds to what is owed. */
    ghost method Arrive(data: bytes)
      requires Idle()
      modifies this`stream
      ensures stream == old(stream) + data
      ensures Owes(buf + recvBuf + data)
    {
      hide Step1, Project, Join;
      ghost var x := buf + recvBuf;
      ArrivalExtends(env, InitCore(offered), stream, State(), x, data, fx);
      stream := stream + data;
    }

    /** Plain-protocol read of an immutable bytes object. */
    method DataReceived(data: bytes)
      requires Idle() && recvBuf == []
      modifies this
      ensures stream == old(stream) + data && recvBuf == []
      ensures Valid()
    {
      hide Run, Step1, Project, Join, WalkFrom;
      Arrive(data);
      assert buf + recvBuf == buf;
      DataReceivedInnerPyBytes(data);
      assert buf + recvBuf == buf;
    }

    /** Read of any other buffer, and of plaintext from the TLS shim. */
    method DataReceivedPlaintext(data: bytes)
      requires Idle() && recvBuf == []
      modifies this
      ensures stream == old(stream) + data && recvBuf == []
      ensures Valid()
    {
      hide Run, Step1, Project, Join, WalkFrom;
      if data != [] {
        Arrive(data);
        assert buf + recvBuf == buf;
        DataReceivedInner(data);
        assert buf + recvBuf == buf;
      } else {
        assert stream + data == stream;
      }
    }

    /** Buffered-protocol read: `data` was written behind `recvBuf`. While a known
        partial frame is still short, parsing is skipped altogether. */
    method BufferUpdated(data: bytes)
      requires Idle()
      modifies this
      ensures stream == old(stream) + data
      ensures Valid()
      ensures nextFrameNeeded.Some? && Idle() ==> |recvBuf| < nextFrameNeeded.value <= MAX_FRAME_SIZE + 10
    {
      hide Run, Step1, Project, Join, ParseHeader;
      ghost var x, carried := buf + recvBuf, recvBuf;
      Arrive(data);
      recvBuf := recvBuf + data;
      assert x + data == buf + recvBuf;
      if nextFrameNeeded.Some? {
        if |recvBuf| < nextFrameNeeded.value {
          PartialStuck(env, State(), carried, data);
          assert buf + recvBuf == recvBuf;
          Rescan(recvBuf, 0);
          return;
        }
        nextFrameNeeded := None;
      }
      var received := recvBuf;
      recvBuf := [];
      var consumed, needed := ParseRecvData(received);
      if consumed < |received| {
        recvBuf := recvBuf + received[consumed..];
      }
      assert recvBuf == received[consumed..];
      nextFrameNeeded := needed;
    }
  }

  datatype Path = PlainBytes | Plaintext | Buffered

  /**
   Chunk invariance. However the stream is cut into reads, and whichever of the
   three entry paths delivers them, the client's messages, Pong replies,
   acknowledgments, handshake result and terminal event are those of one run over
   all bytes. Reading stops at the terminal event.
   */
  method Feed(client: NativeClient, path: Path, chunks: seq<bytes>)
    requires client.Idle() && client.recvBuf == []
    modifies client
    ensures client.fx == Project(Run(client.env, InitCore(client.offered), old(client.stream) + Flatten(chunks)).events)
    ensures client.Valid()
  {
    assert client.stream + Flatten([]) == client.stream && chunks[..0] == [];
    hide Run, Step1, Project, Join, WalkFrom, Flatten;
    ghost var s0 := client.stream;
    var i := 0;
    while i < |chunks| && client.fx.terminal.None?
      invariant i <= |chunks|
      invariant client.Valid() && client.stream == s0 + Flatten(chunks[..i])
      invariant path.Buffered? || client.recvBuf == []
      decreases |chunks| - i
    {
      match path {
        case PlainBytes => client.DataReceived(chunks[i]);
        case Plaintext => client.DataReceivedPlaintext(chunks[i]);
        case Buffered => client.BufferUpdated(chunks[i]);
      }
      NextOfFeed(s0, chunks, i);
      i := i + 1;
    }
    RestOfFeed(s0, chunks, i);
    if client.fx.terminal.Some? {
      HaltedForGood(client.env, InitCore(client.offered), client.stream, Flatten(chunks[i..]));
    } else {
      IdleEffects(client.env, client.State(), client.buf + client.recvBuf, client.fx);
    }
  }

  lemma {:induction false} RestOfFeed(s0: bytes, chunks: seq<bytes>, i: nat)
    requires i <= |chunks|
    ensures s0 + Flatten(chunks) == s0 + Flatten(chunks[..i]) + Flatten(chunks[i..])
    ensures i == |chunks| ==> s0 + Flatten(chunks) == s0 + Flatten(chunks[..i])
  {
    FlattenAppend(chunks[..i], chunks[i..]);
    hide Flatten;
    assert chunks == chunks[..i] + chunks[i..];
    assert chunks[..|chunks|] == chunks;
    ConcatAssociative(s0, Flatten(chunks[..i]), Flatten(chunks[i..]));
  }

  lemma {:induction false} NextOfFeed(s0: bytes, chunks: seq<bytes>, i: nat)
    requires i < |chunks|
    ensures s0 + Flatten(chunks[..i + 1]) == s0 + Flatten(chunks[..i]) + chunks[i]
  {
    FlattenSnoc(chunks[..i], chunks[i]);
    hide Flatten;
    assert chunks[..i + 1] == chunks[..i] + [chunks[i]];
    ConcatAssociative(s0, Flatten(chunks[..i]), chunks[i]);
  }

  /** A server that accepts and then sends any list of frames has the effects the list
      means, however its bytes are cut into reads. */
  method FeedFrames(client: NativeClient, path: Path, header: bytes, fs: seq<Fragments.Frame>, chunks: seq<bytes>)
    requires client.Idle() && client.recvBuf == [] && client.stream == []
    requires Fragments.AllEncodable(fs) && FindHeaderEnd(header) == Some(|header|) && client.env.judge(header).Accept?
    requires Flatten(chunks) == header + Fragments.SerializeFrom(fs, 0)
    modifies client
    ensures var Accept(subprotocol, deflate) := client.env.judge(header);
            var compression := client.offered && deflate;
            client.fx == Project(
              [Accepted(subprotocol, compression)] + Fragments.Meaning(client.env, compression, fs, 0))
  {
    hide *;
    Fragments.StreamMeansFrames(client.env, client.offered, header, fs);
    assert client.stream + Flatten(chunks) == Flatten(chunks);
    Feed(client, path, chunks);
  }

  /** A rejected handshake: nothing is accepted, delivered or answered, whatever follows it. */
  method FeedRejected(client: NativeClient, path: Path, header: bytes, rest: bytes, chunks: seq<bytes>)
    requires client.Idle() && client.recvBuf == [] && client.stream == []
    requires FindHeaderEnd(header) == Some(|header|) && client.env.judge(header).Reject?
    requires Flatten(chunks) == header + rest
    modifies client
    ensures client.fx == Effects([], [], [], [], Some(Rejected(client.env.judge(header).status)))
  {
    Fragments.StreamRejected(client.env, client.offered, header, rest);
    OnlyTerminal(Rejected(client.env.judge(header).status));
    hide *;
    assert client.stream + Flatten(chunks) == Flatten(chunks);
    Feed(client, path, chunks);
  }

  lemma {:induction false} OnlyTerminal(e: Event)
    requires Terminal(e)
    ensures Project([e]) == Effects([], [], [], [], Some(e))
  {
    EffectOne(e);
  }
}
