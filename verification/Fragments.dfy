/**
 Frame lists: every list of unmasked server frames, serialized with any length
 form, means what section 5.4 of RFC 6455 says. The meaning of a frame is
 defined by looking back at the list, with no parser state.
 */
module Fragments {
  import opened Common
  import opened Codec
  import opened Protocol

  datatype LengthForm = Short | Medium | Long

  datatype Frame = Frame(fin: bool, rsv1: bool, rsv2: bool, rsv3: bool, opcode: nat, form: LengthForm, payload: bytes)

  predicate Encodable(f: Frame) {
    && f.opcode < 16
    && match f.form
       case Short => |f.payload| <= 125
       case Medium => |f.payload| < 0x1_0000
       case Long => |f.payload| < Pow256(8)
  }

  function Bit(b: bool): nat { if b then 1 else 0 }

  function FlagByte(f: Frame): byte
    requires f.opcode < 16
  {
    128 * Bit(f.fin) + 64 * Bit(f.rsv1) + 32 * Bit(f.rsv2) + 16 * Bit(f.rsv3) + f.opcode
  }

  function LengthBytes(f: Frame): (s: bytes)
    requires Encodable(f)
    ensures |s| == match f.form case Short => 1 case Medium => 3 case Long => 9
  {
    match f.form
    case Short => [|f.payload|]
    case Medium => [126] + ToBigEndian(|f.payload|, 2)
    case Long => [127] + ToBigEndian(|f.payload|, 8)
  }

  function Serialize(f: Frame): bytes
    requires Encodable(f)
  {
    [FlagByte(f)] + LengthBytes(f) + f.payload
  }

  function HeaderOf(f: Frame): Header
    requires Encodable(f)
  {
    Header(f.fin, f.rsv1, f.opcode, |f.payload|, 1 + |LengthBytes(f)|)
  }

  lemma {:induction false} ParseFlags(f: Frame)
    requires f.opcode < 16
    ensures (FlagByte(f) >= 128) == f.fin && (FlagByte(f) / 64 % 2 == 1) == f.rsv1 && FlagByte(f) % 16 == f.opcode
  {
  }

  lemma {:induction false} SerializedLayout(f: Frame, rest: bytes)
    requires Encodable(f)
    ensures var s := Serialize(f) + rest;
            var n := 1 + |LengthBytes(f)|;
            && |Serialize(f)| == n + |f.payload|
            && s[0] == FlagByte(f) && s[1..n] == LengthBytes(f) && s[1] == LengthBytes(f)[0]
            && s[n..n + |f.payload|] == f.payload
            && s[n + |f.payload|..] == rest
  {
    hide FlagByte, LengthBytes;
  }

  /** Whatever follows, a serialized frame parses back to its own header and payload. */
  lemma {:induction false} ParseSerialized(f: Frame, rest: bytes)
    requires Encodable(f)
    ensures var s := Serialize(f) + rest;
            var h := HeaderOf(f);
            && ParseHeader(s) == Some(h)
            && h.hdr + h.plen == |Serialize(f)| <= |s|
            && s[h.hdr..h.hdr + h.plen] == f.payload
            && s[h.hdr + h.plen..] == rest
  {
    hide Serialize, FlagByte, LengthBytes, ParseHeader, BigEndian, ToBigEndian, Pow256;
    var s := Serialize(f) + rest;
    var n := 1 + |LengthBytes(f)|;
    ParseFlags(f);
    SerializedLayout(f, rest);
    LengthBytesShape(f);
    match f.form {
      case Short => ShortHeader(s, |f.payload|);
      case Medium =>
        assert s[2..4] == s[1..n][1..];
        MediumBound();
        BigEndianRoundTrip(|f.payload|, 2);
        MediumHeader(s, |f.payload|);
      case Long =>
        assert s[2..10] == s[1..n][1..];
        BigEndianRoundTrip(|f.payload|, 8);
        LongHeader(s, |f.payload|);
    }
  }

  lemma {:induction false} LengthBytesShape(f: Frame)
    requires Encodable(f)
    ensures var s := LengthBytes(f);
            match f.form
            case Short => s[0] == |f.payload|
            case Medium => s[0] == 126 && s[1..] == ToBigEndian(|f.payload|, 2)
            case Long => s[0] == 127 && s[1..] == ToBigEndian(|f.payload|, 8)
  {
    hide ToBigEndian, Pow256;
  }

  lemma {:induction false} MediumBound()
    ensures Pow256(2) == 0x1_0000
  {
  }

  ghost predicate AllEncodable(fs: seq<Frame>) { forall f :: f in fs ==> Encodable(f) }

  ghost function SerializeFrom(fs: seq<Frame>, i: nat): bytes
    requires AllEncodable(fs) && i <= |fs|
    decreases |fs| - i
  {
    if i == |fs| then [] else Serialize(fs[i]) + SerializeFrom(fs, i + 1)
  }

  // ---- meaning, by history ----

  // Opcodes, sizes and close codes are those of RFC 6455 and of the client's limits, as numbers.

  predicate StartsMessage(f: Frame) { f.opcode == 1 || f.opcode == 2 }

  predicate CarriesData(f: Frame) { StartsMessage(f) || f.opcode == 0 }

  /** The frame that opened the fragmented message in progress just before frame `i`. */
  ghost function OpenAt(fs: seq<Frame>, i: nat): (r: Option<nat>)
    requires i <= |fs|
    ensures r.Some? ==> r.value < i && StartsMessage(fs[r.value]) && !fs[r.value].fin
  {
    if i == 0 then None
    else if StartsMessage(fs[i - 1]) && !fs[i - 1].fin then Some(i - 1)
    else if fs[i - 1].opcode == 0 && fs[i - 1].fin then None
    else OpenAt(fs, i - 1)
  }

  /** All data carried by frames `a` up to but excluding `b`, control frames skipped. */
  ghost function Body(fs: seq<Frame>, a: nat, b: nat): bytes
    requires a <= b <= |fs|
  {
    if a == b then []
    else Body(fs, a, b - 1) + if CarriesData(fs[b - 1]) then fs[b - 1].payload else []
  }

  /** What a complete message means: its bytes, inflated if RSV1 is set on its first frame. */
  ghost function Delivered(env: Env, compression: bool, rsv1: bool, raw: bytes): Event {
    if !rsv1 then Message(raw)
    else if !compression then ProtocolError(1002, NotNegotiated)
    else
      var r := env.inflate(raw + [0, 0, 255, 255]);
      if |r.out| > 0x400_0000 then ProtocolError(1009, InflatedTooBig)
      else if !r.clean then ProtocolError(1002, DeflateError)
      else Message(r.out)
  }

  function TwoByteValue(high: int, low: int): int { 256 * high + low }

  /** What the payload of a Close frame means: two bytes of code, then a reason. */
  ghost function Closing(p: bytes): Event {
    Close(if |p| >= 2 then Some(TwoByteValue(p[0], p[1])) else None, if |p| > 2 then Some(p[2..]) else None)
  }

  ghost function EventAt(env: Env, compression: bool, fs: seq<Frame>, i: nat): Option<Event>
    requires i < |fs|
  {
    var f := fs[i];
    if |f.payload| > 0x100_0000 then Some(ProtocolError(1009, FrameTooBig))
    else if StartsMessage(f) then
      if OpenAt(fs, i).Some? then Some(ProtocolError(1002, DataDuringFragment))
      else if f.fin then Some(Delivered(env, compression, f.rsv1, f.payload))
      else None
    else if f.opcode == 0 then
      match OpenAt(fs, i)
      case None => Some(ProtocolError(1002, StrayContinuation))
      case Some(first) =>
        var message := Body(fs, first, i + 1);
        if |message| > 0x400_0000 then Some(ProtocolError(1009, MessageTooBig))
        else if f.fin then Some(Delivered(env, compression, fs[first].rsv1, message))
        else None
    else if f.opcode == 8 then Some(Closing(f.payload))
    else if f.opcode == 9 then Some(SendPong(f.payload))
    else if f.opcode == 10 then Some(Pong(f.payload))
    else None
  }

  /** Events from frame `i` on, up to and including a Close or a protocol error. */
  ghost function Meaning(env: Env, compression: bool, fs: seq<Frame>, i: nat): seq<Event>
    requires i <= |fs|
    decreases |fs| - i
  {
    if i == |fs| then []
    else match EventAt(env, compression, fs, i)
      case None => Meaning(env, compression, fs, i + 1)
      case Some(e) =>
        if e.Close? || e.ProtocolError? then [e] else [e] + Meaning(env, compression, fs, i + 1)
  }

  lemma {:induction false} NeverRejected(env: Env, compression: bool, fs: seq<Frame>, i: nat)
    requires i < |fs| && EventAt(env, compression, fs, i).Some?
    ensures var e := EventAt(env, compression, fs, i).value; !e.Rejected? && !e.Accepted?
  {
    hide Body, OpenAt;
  }

  /** The code agrees on complete messages, Close payloads and faults. */
  lemma {:induction false} FinishDelivers(env: Env, compression: bool, rsv1: bool, raw: bytes)
    ensures Finish(env, compression, rsv1, raw) == Delivered(env, compression, rsv1, raw)
  {
  }

  lemma {:induction false} ClosePayloadCloses(p: bytes)
    ensures ParseClosePayload(p) == Closing(p)
  {
    if |p| >= 2 {
      assert p[..2] == [p[0], p[1]];
      TwoBytes(p[0], p[1]);
    }
  }

  lemma {:induction false} TwoBytes(a: byte, b: byte)
    ensures BigEndian([a, b]) == TwoByteValue(a, b)
  {
    assert [a, b][..1] == [a] && [a][..0] == [];
    assert BigEndian([a]) == a;
  }

  /** A Close frame's payload written as code and text reads back as code and text. */
  lemma {:induction false} CloseRoundTrip(code: nat, text: bytes)
    requires code < 0x1_0000
    ensures ParseClosePayload([code / 256, code % 256] + text) ==
            Close(Some(code), if text == [] then None else Some(text))
  {
    var p: bytes := [code / 256, code % 256] + text;
    ClosePayloadCloses(p);
    assert p[2..] == text;
  }

  /** The parser state a history stands for. */
  ghost function CoreAt(compression: bool, fs: seq<Frame>, i: nat): Core
    requires i <= |fs|
  {
    match OpenAt(fs, i)
    case None => Core(true, compression, None, 0, false)
    case Some(first) => Core(true, compression, Some(Body(fs, first, i)), fs[first].opcode, fs[first].rsv1)
  }

  lemma {:induction false} StepMatchesHistory(env: Env, compression: bool, fs: seq<Frame>, i: nat)
    requires AllEncodable(fs) && i < |fs|
    ensures var s := Step1(env, CoreAt(compression, fs, i), SerializeFrom(fs, i));
            && s.Advance? && s.event == EventAt(env, compression, fs, i)
            && (Continues(s) ==> s.core == CoreAt(compression, fs, i + 1) && s.taken == |Serialize(fs[i])|)
  {
    var f, c := fs[i], CoreAt(compression, fs, i);
    ParseSerialized(f, SerializeFrom(fs, i + 1));
    FrameMatchesHistory(env, compression, fs, i);
    hide ParseHeader, FrameStep, CoreAt, EventAt, Serialize;
    assert Step1(env, c, SerializeFrom(fs, i)) ==
           if |f.payload| > MAX_FRAME_SIZE then Advance(c, 0, Some(Fail(FrameTooBig)))
           else FrameStep(env, c, HeaderOf(f), f.payload);
  }

  lemma {:induction false} FrameMatchesHistory(env: Env, compression: bool, fs: seq<Frame>, i: nat)
    requires i < |fs| && Encodable(fs[i])
    ensures var f := fs[i];
            var c := CoreAt(compression, fs, i);
            var s := if |f.payload| > MAX_FRAME_SIZE then Advance(c, 0, Some(Fail(FrameTooBig)))
                     else FrameStep(env, c, HeaderOf(f), f.payload);
            && s.event == EventAt(env, compression, fs, i)
            && (Continues(s) ==> s.core == CoreAt(compression, fs, i + 1) && s.taken == HeaderOf(f).hdr + |f.payload|)
  {
    hide Body, OpenAt, Finish, Delivered, ParseClosePayload, Closing;
    var f := fs[i];
    ClosePayloadCloses(f.payload);
    FinishDelivers(env, compression, f.rsv1, f.payload);
    BodyNext(fs, i, i);
    if OpenAt(fs, i).Some? {
      var first := OpenAt(fs, i).value;
      BodyNext(fs, first, i);
      FinishDelivers(env, compression, fs[first].rsv1, Body(fs, first, i) + f.payload);
    }
    OpenNext(fs, i);
  }

  lemma {:induction false} BodyNext(fs: seq<Frame>, a: nat, i: nat)
    requires a <= i < |fs|
    ensures Body(fs, a, i + 1) ==
            if !CarriesData(fs[i]) then Body(fs, a, i)
            else if a == i then fs[i].payload
            else Body(fs, a, i) + fs[i].payload
  {
    hide CarriesData;
    assert Body(fs, a, i) + [] == Body(fs, a, i) && [] + fs[i].payload == fs[i].payload;
  }

  lemma {:induction false} OpenNext(fs: seq<Frame>, i: nat)
    requires i < |fs|
    ensures OpenAt(fs, i + 1) ==
            if StartsMessage(fs[i]) && !fs[i].fin then Some(i)
            else if fs[i].opcode == 0 && fs[i].fin then None
            else OpenAt(fs, i)
  {
  }

  /** Reassembly: parsing the bytes of any frame list yields the events the list
      means, and unless the connection ended every byte is consumed. */
  lemma {:induction false} RunMeansFrames(env: Env, compression: bool, fs: seq<Frame>, i: nat)
    requires AllEncodable(fs) && i <= |fs|
    ensures var o := Run(env, CoreAt(compression, fs, i), SerializeFrom(fs, i));
            && o.events == Meaning(env, compression, fs, i)
            && (!Halted(o) ==> o.rest == [])
    decreases |fs| - i
  {
    hide Step1, Run, CoreAt, EventAt, Serialize;
    var c, s := CoreAt(compression, fs, i), SerializeFrom(fs, i);
    RunUnfold(env, c, s, Step1(env, c, s));
    if i == |fs| {
      NothingToDo(env, c);
    } else {
      StepMatchesHistory(env, compression, fs, i);
      if EventAt(env, compression, fs, i).Some? { NeverRejected(env, compression, fs, i); }
      RunMeansFrames(env, compression, fs, i + 1);
      assert s[|Serialize(fs[i])|..] == SerializeFrom(fs, i + 1);
      hide SerializeFrom;
    }
  }

  /** A whole connection: an accepted header block and then any list of frames. */
  lemma {:induction false} StreamMeansFrames(env: Env, offered: bool, header: bytes, fs: seq<Frame>)
    requires AllEncodable(fs) && FindHeaderEnd(header) == Some(|header|) && env.judge(header).Accept?
    ensures var Accept(subprotocol, deflate) := env.judge(header);
            var compression := offered && deflate;
            Run(env, InitCore(offered), header + SerializeFrom(fs, 0)).events ==
            [Accepted(subprotocol, compression)] + Meaning(env, compression, fs, 0)
  {
    hide FindHeaderEnd, SerializeFrom, Meaning, Step1, CoreAt, Run;
    var Accept(subprotocol, deflate) := env.judge(header);
    var rest := SerializeFrom(fs, 0);
    AcceptStep(env, offered, header, rest);
    assert (header + rest)[|header|..] == rest;
    FirstCore(offered && deflate, fs);
    RunUnfold(env, InitCore(offered), header + rest, Step1(env, InitCore(offered), header + rest));
    RunMeansFrames(env, offered && deflate, fs, 0);
  }

  lemma {:induction false} AcceptStep(env: Env, offered: bool, header: bytes, rest: bytes)
    requires FindHeaderEnd(header) == Some(|header|) && env.judge(header).Accept?
    ensures var Accept(subprotocol, deflate) := env.judge(header);
            var compression := offered && deflate;
            Step1(env, InitCore(offered), header + rest) ==
            Advance(Core(true, compression, None, 0, false), |header|, Some(Accepted(subprotocol, compression)))
  {
    FindHeaderEndStable(header, rest);
    hide FindHeaderEnd;
    assert (header + rest)[..|header|] == header;
  }

  lemma {:induction false} FirstCore(compression: bool, fs: seq<Frame>)
    ensures CoreAt(compression, fs, 0) == Core(true, compression, None, 0, false)
  {
  }

  /** A header block the judge rejects ends the connection with its status, whatever follows. */
  lemma {:induction false} StreamRejected(env: Env, offered: bool, header: bytes, rest: bytes)
    requires FindHeaderEnd(header) == Some(|header|) && env.judge(header).Reject?
    ensures Run(env, InitCore(offered), header + rest).events == [Rejected(env.judge(header).status)]
  {
    var c, d := InitCore(offered), header + rest;
    FindHeaderEndStable(header, rest);
    hide FindHeaderEnd, Run;
    assert d[..|header|] == header;
    RunUnfold(env, c, d, Step1(env, c, d));
  }

  /** Before the header block is complete nothing happens. */
  lemma {:induction false} StreamWaits(env: Env, offered: bool, d: bytes)
    requires FindHeaderEnd(d).None?
    ensures Run(env, InitCore(offered), d).events == []
  {
    hide FindHeaderEnd;
  }

  /** A header that announces more than 16 MiB ends the connection before any payload arrives. */
  lemma {:induction false} OversizedHeader(env: Env, c: Core, d: bytes)
    requires c.handshakeDone && ParseHeader(d).Some? && ParseHeader(d).value.plen > 0x100_0000
    ensures Run(env, c, d).events == [ProtocolError(1009, FrameTooBig)]
  {
    hide ParseHeader;
  }

  // ---- one message, whole or in fragments ----

  predicate IsPingPong(f: Frame) { f.opcode == 9 || f.opcode == 10 }

  /** One message: a first frame, continuations, and Pings and Pongs in between; the last
      frame ends it. */
  ghost predicate OneMessage(fs: seq<Frame>, rsv1: bool) {
    var n := |fs| - 1;
    && n >= 0 && StartsMessage(fs[0]) && fs[0].rsv1 == rsv1
    && (forall i :: 0 < i <= n ==> fs[i].opcode == 0 || (i < n && IsPingPong(fs[i])))
    && (forall i :: 0 <= i <= n && CarriesData(fs[i]) ==> (fs[i].fin <==> i == n))
    && (forall i :: 0 <= i <= n ==> |fs[i].payload| <= 0x100_0000)
  }

  /** The Pings and Pongs from frame `i` on. */
  ghost function PingPongs(fs: seq<Frame>, i: nat): seq<Event>
    requires i <= |fs|
    decreases |fs| - i
  {
    if i == |fs| then []
    else if fs[i].opcode == 9 then [SendPong(fs[i].payload)] + PingPongs(fs, i + 1)
    else if fs[i].opcode == 10 then [Pong(fs[i].payload)] + PingPongs(fs, i + 1)
    else PingPongs(fs, i + 1)
  }

  lemma {:induction false} StaysOpen(fs: seq<Frame>, rsv1: bool, i: nat)
    requires OneMessage(fs, rsv1) && 0 < i < |fs|
    ensures OpenAt(fs, i) == Some(0)
  {
    hide CarriesData;
    assert CarriesData(fs[i - 1]) || IsPingPong(fs[i - 1]) by { KindOf(fs, rsv1, i - 1); }
    OpenNext(fs, i - 1);
    if i > 1 { StaysOpen(fs, rsv1, i - 1); }
    hide OpenAt;
    KindOf(fs, rsv1, i - 1);
  }

  lemma {:induction false} KindOf(fs: seq<Frame>, rsv1: bool, i: nat)
    requires OneMessage(fs, rsv1) && i < |fs|
    ensures CarriesData(fs[i]) || IsPingPong(fs[i])
    ensures StartsMessage(fs[i]) <==> i == 0
    ensures i < |fs| - 1 && !IsPingPong(fs[i]) ==> !fs[i].fin
    ensures i == |fs| - 1 ==> fs[i].fin && !IsPingPong(fs[i])
  {
  }

  lemma {:induction false} BodyGrows(fs: seq<Frame>, a: nat, b: nat, c: nat)
    requires a <= b <= c <= |fs|
    ensures |Body(fs, a, b)| <= |Body(fs, a, c)|
  {
    if b < c { BodyGrows(fs, a, b, c - 1); }
  }

  /** The event of each frame of the message. */
  lemma {:induction false} MessageFrame(env: Env, compression: bool, fs: seq<Frame>, rsv1: bool, i: nat)
    requires OneMessage(fs, rsv1) && i < |fs| && |Body(fs, 0, |fs|)| <= 0x400_0000
    ensures EventAt(env, compression, fs, i) ==
            if fs[i].opcode == 9 then Some(SendPong(fs[i].payload))
            else if fs[i].opcode == 10 then Some(Pong(fs[i].payload))
            else if i < |fs| - 1 then None
            else Some(Delivered(env, compression, rsv1, Body(fs, 0, |fs|)))
  {
    KindOf(fs, rsv1, i);
    BodyGrows(fs, 0, i + 1, |fs|);
    BodyNext(fs, 0, i);
    if i > 0 { StaysOpen(fs, rsv1, i); } else { assert OpenAt(fs, 0).None?; }
    hide OpenAt, Body, Delivered;
  }

  /** However a message is cut into frames, and whatever Pings and Pongs come in between,
      it means one event: that of its whole content. */
  lemma {:induction false} MessageFromFrames(env: Env, compression: bool, fs: seq<Frame>, rsv1: bool, i: nat)
    requires OneMessage(fs, rsv1) && i < |fs| && |Body(fs, 0, |fs|)| <= 0x400_0000
    ensures Meaning(env, compression, fs, i) ==
            PingPongs(fs, i) + [Delivered(env, compression, rsv1, Body(fs, 0, |fs|))]
    decreases |fs| - i
  {
    hide EventAt, Body, Delivered, OneMessage;
    MessageFrame(env, compression, fs, rsv1, i);
    if i < |fs| - 1 {
      MessageFromFrames(env, compression, fs, rsv1, i + 1);
    } else {
      LastFrame(fs, rsv1);
      assert Meaning(env, compression, fs, i + 1) == [] && PingPongs(fs, i) == [];
    }
  }

  lemma {:induction false} LastFrame(fs: seq<Frame>, rsv1: bool)
    requires OneMessage(fs, rsv1)
    ensures PingPongs(fs, |fs|) == [] && fs[|fs| - 1].opcode != 9 && fs[|fs| - 1].opcode != 10
  {
  }

  /**
   A compressed message round trips: if inflating what `z` makes of it with the marker
   00 00 FF FF gives it back, every way to cut `z` into frames delivers it. Without
   negotiation, or if the stream is not clean, the connection ends with 1002; if the content is
   larger than 64 MiB, with 1009.
   */
  lemma {:induction false} CompressedMessage(env: Env, compression: bool, fs: seq<Frame>, z: bytes, out: bytes,
    clean: bool)
    requires OneMessage(fs, true) && Body(fs, 0, |fs|) == z && |z| <= 0x400_0000
    requires env.inflate(z + [0x00, 0x00, 0xFF, 0xFF]) == Inflated(out, clean)
    ensures Meaning(env, compression, fs, 0) == PingPongs(fs, 0) + [
      if !compression then ProtocolError(1002, NotNegotiated)
      else if |out| > 0x400_0000 then ProtocolError(1009, InflatedTooBig)
      else if !clean then ProtocolError(1002, DeflateError)
      else Message(out)]
  {
    assert |fs| > 0;
    hide Meaning, OneMessage, Body, PingPongs;
    MessageFromFrames(env, compression, fs, true, 0);
  }
}
