/**
 The receive protocol as a function of the byte stream: one step per handshake
 block or frame, and the run that repeats steps until bytes are missing or the
 connection ends.
 */
module Protocol {
  import opened Common
  import opened Codec

  /** Decision on the HTTP response, and what the DEFLATE decoder yields before
      it stops: both are foreign code, here arbitrary functions. */
  datatype Verdict = Accept(subprotocol: Option<bytes>, deflate: bool) | Reject(status: Option<nat>)
  datatype Inflated = Inflated(out: bytes, clean: bool)
  datatype Env = Env(judge: bytes -> Verdict, inflate: bytes -> Inflated)

  datatype Fault =
    | FrameTooBig
    | DataDuringFragment
    | StrayContinuation
    | MessageTooBig
    | NotNegotiated
    | DeflateError
    | InflatedTooBig

  function CloseCode(f: Fault): u16 {
    if f.FrameTooBig? || f.MessageTooBig? || f.InflatedTooBig? then 1009 else 1002
  }

  datatype Event =
    | Accepted(subprotocol: Option<bytes>, compression: bool)
    | Rejected(status: Option<nat>)
    | Message(payload: bytes)
    | SendPong(payload: bytes)
    | Pong(payload: bytes)
    | Close(code: Option<nat>, reason: Option<bytes>)
    | ProtocolError(closeCode: u16, fault: Fault)

  predicate Terminal(e: Event) { e.Rejected? || e.Close? || e.ProtocolError? }

  function Fail(f: Fault): Event { ProtocolError(CloseCode(f), f) }

  function ParseClosePayload(p: bytes): (e: Event)
    ensures e.Close?
  {
    Close(if |p| >= 2 then Some(BigEndian(p[..2])) else None, if |p| > 2 then Some(p[2..]) else None)
  }

  /** Inflating one message: at most MAX_MESSAGE_SIZE + 1 bytes are ever taken from the decoder. */
  function Decompress(env: Env, enabled: bool, compressed: bytes): Result<bytes, Fault> {
    if !enabled then Err(NotNegotiated)
    else
      var r := env.inflate(compressed + [0x00, 0x00, 0xFF, 0xFF]);
      if |r.out| > MAX_MESSAGE_SIZE then Err(InflatedTooBig)
      else if !r.clean then Err(DeflateError)
      else Ok(r.out)
  }

  /** The event that ends a message whose raw payload is complete. */
  function Finish(env: Env, enabled: bool, compressed: bool, raw: bytes): (e: Event)
    ensures e.Message? || (e.ProtocolError? && compressed)
  {
    if !compressed then Message(raw)
    else match Decompress(env, enabled, raw)
      case Ok(out) => Message(out)
      case Err(f) => Fail(f)
  }

  datatype Core = Core(
    handshakeDone: bool,
    compression: bool,
    fragment: Option<bytes>,
    fragmentOpcode: nat,
    fragmentRsv1: bool)

  function InitCore(offerCompression: bool): Core { Core(false, offerCompression, None, 0, false) }

  /** No fragment in flight means its opcode and RSV1 slots are clear; a partial
      assembly never exceeds the message cap. */
  ghost predicate CoreOk(c: Core) {
    && (c.fragment.None? ==> c.fragmentOpcode == 0 && !c.fragmentRsv1)
    && (c.fragment.Some? ==> |c.fragment.value| <= MAX_MESSAGE_SIZE && c.handshakeDone)
  }

  datatype Step = NeedMore | Advance(core: Core, taken: nat, event: Option<Event>)

  /** Effect of one whole frame. A sequence or size violation leaves the frame in the buffer. */
  function FrameStep(env: Env, c: Core, h: Header, payload: bytes): (s: Step)
    requires |payload| == h.plen
    ensures s.Advance?
  {
    var total := h.hdr + h.plen;
    if h.opcode == OP_TEXT || h.opcode == OP_BINARY then
      if c.fragment.Some? then Advance(c, 0, Some(Fail(DataDuringFragment)))
      else if h.fin then Advance(c, total, Some(Finish(env, c.compression, h.rsv1, payload)))
      else Advance(c.(fragment := Some(payload), fragmentOpcode := h.opcode, fragmentRsv1 := h.rsv1), total, None)
    else if h.opcode == OP_CONTINUATION then
      if c.fragment.None? then Advance(c, 0, Some(Fail(StrayContinuation)))
      else if |c.fragment.value| + h.plen > MAX_MESSAGE_SIZE then Advance(c, 0, Some(Fail(MessageTooBig)))
      else
        var raw := c.fragment.value + payload;
        if h.fin then
          Advance(c.(fragment := None, fragmentOpcode := 0, fragmentRsv1 := false), total,
                  Some(Finish(env, c.compression, c.fragmentRsv1, raw)))
        else Advance(c.(fragment := Some(raw)), total, None)
    else if h.opcode == OP_CLOSE then Advance(c, total, Some(ParseClosePayload(payload)))
    else if h.opcode == OP_PING then Advance(c, total, Some(SendPong(payload)))
    else if h.opcode == OP_PONG then Advance(c, total, Some(Pong(payload)))
    else Advance(c, total, None)
  }

  function HandshakeStep(env: Env, c: Core, buf: bytes): Step {
    match FindHeaderEnd(buf)
    case None => NeedMore
    case Some(end) =>
      match env.judge(buf[..end])
      case Reject(status) => Advance(c, end, Some(Rejected(status)))
      case Accept(sub, deflate) =>
        var compression := c.compression && deflate;
        Advance(c.(handshakeDone := true, compression := compression), end, Some(Accepted(sub, compression)))
  }

  function Step1(env: Env, c: Core, buf: bytes): (s: Step)
    ensures s.Advance? ==> s.taken <= |buf|
    ensures s.Advance? && (s.event.None? || !Terminal(s.event.value)) ==> s.taken >= 2
  {
    if !c.handshakeDone then HandshakeStep(env, c, buf)
    else match ParseHeader(buf)
      case None => NeedMore
      case Some(h) =>
        if h.plen > MAX_FRAME_SIZE then Advance(c, 0, Some(Fail(FrameTooBig)))
        else if |buf| < h.hdr + h.plen then NeedMore
        else FrameStep(env, c, h, buf[h.hdr..h.hdr + h.plen])
  }

  lemma {:induction false} SliceStable(a: bytes, b: bytes, i: nat, j: nat)
    requires i <= j <= |a|
    ensures (a + b)[i..j] == a[i..j]
  {
  }

  /** A step that can be taken is taken the same way however many bytes follow. */
  lemma {:induction false} StepStable(env: Env, c: Core, a: bytes, b: bytes)
    requires Step1(env, c, a).Advance?
    ensures Step1(env, c, a + b) == Step1(env, c, a)
  {
    hide FindHeaderEnd, ParseHeader, FrameStep;
    if !c.handshakeDone {
      FindHeaderEndStable(a, b);
      var end := FindHeaderEnd(a).value;
      SliceStable(a, b, 0, end);
      assert a[..end] == a[0..end] && (a + b)[..end] == (a + b)[0..end];
    } else {
      ParseHeaderStable(a, b);
      var h := ParseHeader(a).value;
      if h.plen <= MAX_FRAME_SIZE {
        SliceStable(a, b, h.hdr, h.hdr + h.plen);
      }
    }
  }

  lemma {:induction false} StepKeepsCore(env: Env, c: Core, buf: bytes)
    requires CoreOk(c) && Step1(env, c, buf).Advance?
    ensures CoreOk(Step1(env, c, buf).core)
  {
  }

  /** Without bytes there is nothing to do. */
  lemma {:induction false} NothingToDo(env: Env, c: Core)
    ensures Step1(env, c, []).NeedMore?
  {
  }

  datatype Outcome = Outcome(events: seq<Event>, core: Core, rest: bytes)

  predicate Halted(o: Outcome) {
    o.events != [] && Terminal(o.events[|o.events| - 1])
  }

  function Prepend(es: seq<Event>, o: Outcome): Outcome { Outcome(es + o.events, o.core, o.rest) }

  /** A step after which the run goes on. */
  predicate Continues(s: Step) { s.Advance? && (s.event.None? || !Terminal(s.event.value)) }

  function Emitted(s: Step): seq<Event>
    requires s.Advance?
  {
    if s.event.None? then [] else [s.event.value]
  }

  /** Repeat steps until bytes run out or a terminal event ends the connection. */
  function Run(env: Env, c: Core, buf: bytes): Outcome
    decreases |buf|
  {
    var s := Step1(env, c, buf);
    if s.NeedMore? then Outcome([], c, buf)
    else if Continues(s) then Prepend(Emitted(s), Run(env, s.core, buf[s.taken..]))
    else Outcome(Emitted(s), s.core, buf[s.taken..])
  }

  lemma {:induction false} RunUnfold(env: Env, c: Core, buf: bytes, s: Step)
    requires s == Step1(env, c, buf)
    ensures s.NeedMore? ==> Run(env, c, buf) == Outcome([], c, buf)
    ensures s.Advance? && s.event.None? ==> Run(env, c, buf) == Run(env, s.core, buf[s.taken..])
    ensures s.Advance? && s.event.Some? && !Terminal(s.event.value) ==>
              Run(env, c, buf) == Prepend([s.event.value], Run(env, s.core, buf[s.taken..]))
    ensures s.Advance? && s.event.Some? && Terminal(s.event.value) ==>
              Run(env, c, buf) == Outcome([s.event.value], s.core, buf[s.taken..])
  {
    hide Step1, Terminal;
    if Continues(s) { assert Prepend([], Run(env, s.core, buf[s.taken..])) == Run(env, s.core, buf[s.taken..]); }
  }

  /** Only the last event of a run can be terminal, and a run that has not halted is out of bytes. */
  ghost predicate WellShaped(env: Env, o: Outcome) {
    && (forall i :: 0 <= i < |o.events| - 1 ==> !Terminal(o.events[i]))
    && (!Halted(o) ==> Step1(env, o.core, o.rest).NeedMore?)
  }

  lemma {:induction false} RunShape(env: Env, c: Core, buf: bytes)
    ensures WellShaped(env, Run(env, c, buf))
    ensures CoreOk(c) ==> CoreOk(Run(env, c, buf).core)
    decreases |buf|
  {
    var s := Step1(env, c, buf);
    if s.Advance? && CoreOk(c) { StepKeepsCore(env, c, buf); }
    if Continues(s) {
      RunShape(env, s.core, buf[s.taken..]);
      WellShapedPrepend(env, Emitted(s), Run(env, s.core, buf[s.taken..]));
    }
  }

  lemma {:induction false} WellShapedPrepend(env: Env, es: seq<Event>, o: Outcome)
    requires WellShaped(env, o)
    requires forall e :: e in es ==> !Terminal(e)
    ensures WellShaped(env, Prepend(es, o))
    ensures Halted(Prepend(es, o)) <==> Halted(o)
  {
    if o.events == [] { assert es + o.events == es; }
  }

  ghost predicate Capped(es: seq<Event>) {
    forall e :: e in es && e.Message? ==> |e.payload| <= MAX_MESSAGE_SIZE
  }

  lemma {:induction false} StepCapsMessages(env: Env, c: Core, buf: bytes)
    requires CoreOk(c) && Step1(env, c, buf).Advance?
    ensures Capped(Emitted(Step1(env, c, buf)))
  {
  }

  /** No emitted message and no partial assembly exceeds 64 MiB, on any stream. */
  lemma {:induction false} RunCapsMessages(env: Env, c: Core, buf: bytes)
    requires CoreOk(c)
    ensures Capped(Run(env, c, buf).events)
    ensures var f := Run(env, c, buf).core.fragment; f.Some? ==> |f.value| <= MAX_MESSAGE_SIZE
    decreases |buf|
  {
    hide Step1;
    var s := Step1(env, c, buf);
    if s.Advance? {
      StepCapsMessages(env, c, buf);
      StepKeepsCore(env, c, buf);
      if Continues(s) { RunCapsMessages(env, s.core, buf[s.taken..]); }
    }
  }

  /** Resume a run: nothing more happens after a terminal event; otherwise go on with `b` appended. */
  function Resume(env: Env, o: Outcome, b: bytes): Outcome {
    if Halted(o) then Outcome(o.events, o.core, o.rest + b)
    else Prepend(o.events, Run(env, o.core, o.rest + b))
  }

  lemma {:induction false} ResumePrepend(env: Env, es: seq<Event>, o: Outcome, b: bytes)
    requires forall e :: e in es ==> !Terminal(e)
    ensures Resume(env, Prepend(es, o), b) == Prepend(es, Resume(env, o, b))
  {
    hide Run, Step1, Terminal;
    if o.events == [] { assert es + o.events == es; }
    var rest := Run(env, o.core, o.rest + b).events;
    assert (es + o.events) + rest == es + (o.events + rest);
  }

  /**
   Chunk independence. Running over `a + b` is running over `a` and, unless that
   already ended the connection, continuing from its final state on what `a`
   left over followed by `b`.
   */
  lemma {:induction false} RunSplit(env: Env, c: Core, a: bytes, b: bytes)
    ensures Run(env, c, a + b) == Resume(env, Run(env, c, a), b)
    decreases |a|
  {
    hide Step1;
    var s := Step1(env, c, a);
    if s.Advance? {
      StepStable(env, c, a, b);
      assert (a + b)[s.taken..] == a[s.taken..] + b;
      if Continues(s) {
        RunSplit(env, s.core, a[s.taken..], b);
        ResumePrepend(env, Emitted(s), Run(env, s.core, a[s.taken..]), b);
      }
    } else {
      assert Prepend([], Run(env, c, a + b)) == Run(env, c, a + b);
    }
  }
}
