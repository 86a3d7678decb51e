/**
 The single pass over frame-aligned data, and the effects events have on the
 outside world.
 */
module FastPath {
  import opened Common
  import opened Codec
  import opened Protocol

  datatype FastFrame = FastFrame(opcode: nat, payload: bytes)

  datatype ScanOutcome =
    | Exhausted(consumed: nat)
    | Partial(consumed: nat, needed: nat)
    | Fallback(consumed: nat)
    | Stopped(consumed: nat)

  /** What the walk finds at one offset: a reason to stop, or a whole plain frame. */
  datatype Look = Stop(outcome: ScanOutcome) | Visit(frame: FastFrame, next: nat)

  function LookAt(data: bytes, off: nat): (r: Look)
    requires off <= |data|
    ensures r.Stop? ==> r.outcome.consumed == off && !r.outcome.Stopped?
    ensures r.Visit? ==> off + 2 <= r.next <= |data|
  {
    match ParseHeader(data[off..])
    case None => Stop(Exhausted(off))
    case Some(h) =>
      var total := h.hdr + h.plen;
      if h.plen > MAX_FRAME_SIZE then Stop(Fallback(off))
      else if |data| - off < total then Stop(Partial(off, total))
      else if !h.fin || h.opcode == OP_CONTINUATION || h.rsv1 then Stop(Fallback(off))
      else Visit(FastFrame(h.opcode, data[off + h.hdr..off + total]), off + total)
  }

  datatype Walked = Walked(frames: seq<FastFrame>, outcome: ScanOutcome)

  /** Frames visited from offset `off`, where the visitor stops at the first Close. */
  function WalkFrom(data: bytes, off: nat): (w: Walked)
    requires off <= |data|
    ensures off <= w.outcome.consumed <= |data|
    decreases |data| - off
  {
    match LookAt(data, off)
    case Stop(outcome) => Walked([], outcome)
    case Visit(f, next) =>
      if f.opcode == OP_CLOSE then Walked([f], Stopped(next))
      else
        var w := WalkFrom(data, next);
        Walked([f] + w.frames, w.outcome)
  }

  function FastEvent(f: FastFrame): seq<Event> {
    if f.opcode == OP_TEXT || f.opcode == OP_BINARY then [Message(f.payload)]
    else if f.opcode == OP_PING then [SendPong(f.payload)]
    else if f.opcode == OP_PONG then [Pong(f.payload)]
    else if f.opcode == OP_CLOSE then [ParseClosePayload(f.payload)]
    else []
  }

  function FastEvents(fs: seq<FastFrame>): seq<Event> {
    if fs == [] then [] else FastEvent(fs[0]) + FastEvents(fs[1..])
  }

  /** No frame is in assembly and the handshake is over, so bytes are frame-aligned. */
  predicate Aligned(c: Core) { c.handshakeDone && c.fragment.None? }

  lemma {:induction false} PlainFrameStep(env: Env, c: Core, h: Header, payload: bytes)
    requires Aligned(c) && |payload| == h.plen && h.fin && h.opcode != OP_CONTINUATION && !h.rsv1
    ensures var s := FrameStep(env, c, h, payload);
            && s.core == c && s.taken == h.hdr + h.plen
            && Emitted(s) == FastEvent(FastFrame(h.opcode, payload))
            && (Continues(s) <==> h.opcode != OP_CLOSE)
  {
  }

  /** The step the slow parser takes at a visited frame. */
  lemma {:induction false} VisitStep(env: Env, c: Core, data: bytes, off: nat)
    requires Aligned(c) && off <= |data| && LookAt(data, off).Visit?
    ensures var Visit(f, next) := LookAt(data, off);
            var s := Step1(env, c, data[off..]);
            && s.Advance? && s.core == c && s.taken == next - off && Emitted(s) == FastEvent(f)
            && (Continues(s) <==> f.opcode != OP_CLOSE)
  {
    hide ParseHeader, FrameStep, FastEvent, Continues, Emitted;
    var d := data[off..];
    var h := ParseHeader(d).value;
    assert d[h.hdr..h.hdr + h.plen] == data[off + h.hdr..off + h.hdr + h.plen];
    PlainFrameStep(env, c, h, d[h.hdr..h.hdr + h.plen]);
  }

  /** What one visited frame does is what the slow parser does with it. */
  lemma {:induction false} VisitIsStep(env: Env, c: Core, data: bytes, off: nat)
    requires Aligned(c) && off <= |data| && LookAt(data, off).Visit?
    ensures var Visit(f, next) := LookAt(data, off);
            Run(env, c, data[off..]) ==
            if f.opcode == OP_CLOSE then Outcome(FastEvent(f), c, data[next..])
            else Prepend(FastEvent(f), Run(env, c, data[next..]))
  {
    hide LookAt, Step1, Run, FastEvent, Terminal;
    VisitStep(env, c, data, off);
    var d, next := data[off..], LookAt(data, off).next;
    assert d[next - off..] == data[next..];
    RunUnfold(env, c, d, Step1(env, c, d));
    NothingPrepended(Run(env, c, data[next..]));
  }

  lemma {:induction false} NothingPrepended(o: Outcome)
    ensures Prepend([], o) == o
  {
  }

  lemma {:induction false} StopIsStuck(env: Env, c: Core, data: bytes, off: nat)
    requires Aligned(c) && off <= |data| && LookAt(data, off).Stop?
    ensures var o := LookAt(data, off).outcome;
            o.Exhausted? || o.Partial? ==> Step1(env, c, data[off..]).NeedMore?
  {
    hide ParseHeader, FrameStep;
  }

  /** The walk's outcome in terms of the run it stands for. */
  ghost predicate Refines(env: Env, c: Core, from: bytes, w: Walked, data: bytes)
    requires w.outcome.consumed <= |data|
  {
    var tail := data[w.outcome.consumed..];
    && Run(env, c, from) ==
       (if w.outcome.Stopped? then Outcome(FastEvents(w.frames), c, tail)
        else Prepend(FastEvents(w.frames), Run(env, c, tail)))
    && (w.outcome.Exhausted? || w.outcome.Partial? ==> Step1(env, c, tail).NeedMore?)
  }

  /** The fast walk refines the slow run, frame by frame. */
  lemma {:induction false} WalkRefinesRun(env: Env, c: Core, data: bytes, off: nat)
    requires Aligned(c) && off <= |data|
    ensures Refines(env, c, data[off..], WalkFrom(data, off), data)
    decreases |data| - off
  {
    hide Step1, LookAt, Run;
    match LookAt(data, off)
    case Stop(outcome) =>
      StopIsStuck(env, c, data, off);
      assert Prepend([], Run(env, c, data[off..])) == Run(env, c, data[off..]);
    case Visit(f, next) =>
      VisitIsStep(env, c, data, off);
      if f.opcode == OP_CLOSE {
        assert FastEvents([f]) == FastEvent(f);
      } else {
        WalkRefinesRun(env, c, data, next);
        VisitThenRefine(env, c, data, data[off..], f, data[next..], WalkFrom(data, next));
      }
  }

  lemma {:induction false} VisitThenRefine(env: Env, c: Core, data: bytes, d: bytes, f: FastFrame, next: bytes,
    w: Walked)
    requires w.outcome.consumed <= |data| && Refines(env, c, next, w, data)
    requires Run(env, c, d) == Prepend(FastEvent(f), Run(env, c, next))
    ensures Refines(env, c, d, Walked([f] + w.frames, w.outcome), data)
  {
    assert ([f] + w.frames)[1..] == w.frames;
    PrependPrepend(FastEvent(f), FastEvents(w.frames), Run(env, c, data[w.outcome.consumed..]));
  }

  lemma {:induction false} PrependPrepend(a: seq<Event>, b: seq<Event>, o: Outcome)
    ensures Prepend(a, Prepend(b, o)) == Prepend(a + b, o)
  {
    assert a + (b + o.events) == (a + b) + o.events;
  }

  /** Where the walk stops, walking again stops at once for the same reason. */
  ghost predicate StopsAgain(data: bytes, o: ScanOutcome)
    requires o.consumed <= |data|
  {
    var again := WalkFrom(data[o.consumed..], 0);
    && (o.Fallback? ==> again == Walked([], Fallback(0)))
    && (o.Partial? ==> again == Walked([], Partial(0, o.needed)))
    && (o.Exhausted? ==> again == Walked([], Exhausted(0)))
    && (o.Partial? ==> |data| - o.consumed < o.needed <= MAX_FRAME_SIZE + 10)
  }

  lemma {:induction false} Rescan(data: bytes, off: nat)
    requires off <= |data|
    ensures StopsAgain(data, WalkFrom(data, off).outcome)
    decreases |data| - off
  {
    hide LookAt;
    match LookAt(data, off)
    case Stop(outcome) => LookAgain(data, off);
    case Visit(f, next) => if f.opcode != OP_CLOSE { Rescan(data, next); }
  }

  lemma {:induction false} LookAgain(data: bytes, off: nat)
    requires off <= |data| && LookAt(data, off).Stop?
    ensures var o := LookAt(data, off).outcome;
            LookAt(data[off..], 0) ==
            Stop(match o case Exhausted(_) => Exhausted(0) case Partial(_, n) => Partial(0, n) case _ => Fallback(0))
    ensures var o := LookAt(data, off).outcome;
            o.Partial? ==> |data| - off < o.needed <= MAX_FRAME_SIZE + 10
  {
    hide ParseHeader;
    assert data[off..][0..] == data[off..];
  }

  /** A partial frame that is still shorter than announced yields nothing. */
  lemma {:induction false} PartialStuck(env: Env, c: Core, data: bytes, more: bytes)
    requires Aligned(c)
    requires WalkFrom(data, 0).outcome.Partial? && WalkFrom(data, 0).outcome.consumed == 0
    requires |data + more| < WalkFrom(data, 0).outcome.needed
    ensures Step1(env, c, data + more).NeedMore?
    ensures WalkFrom(data + more, 0) == Walked([], WalkFrom(data, 0).outcome)
  {
    assert data[0..] == data;
    assert (data + more)[0..] == data + more;
    ParseHeaderStable(data, more);
  }

  /** What reaches the outside: messages, Pong replies (cut to the control-frame
      limit), acknowledged Ping payloads, the handshake result, the terminal event. */
  datatype Effects = Effects(
    messages: seq<bytes>,
    replies: seq<bytes>,
    acks: seq<bytes>,
    accepted: seq<Event>,
    terminal: Option<Event>)

  const NO_EFFECTS := Effects([], [], [], [], None)

  function Cut(p: bytes): bytes { p[..Min(|p|, 125)] }

  function Apply(x: Effects, e: Event): Effects {
    match e
    case Message(p) => x.(messages := x.messages + [p])
    case SendPong(p) => x.(replies := x.replies + [Cut(p)])
    case Pong(p) => x.(acks := x.acks + [p])
    case Accepted(_, _) => x.(accepted := x.accepted + [e])
    case _ => x.(terminal := if x.terminal.Some? then x.terminal else Some(e))
  }

  function Join(x: Effects, y: Effects): Effects {
    Effects(x.messages + y.messages, x.replies + y.replies, x.acks + y.acks, x.accepted + y.accepted,
            if x.terminal.Some? then x.terminal else y.terminal)
  }

  function Project(es: seq<Event>): Effects {
    if es == [] then NO_EFFECTS else Apply(Project(es[..|es| - 1]), es[|es| - 1])
  }

  lemma {:induction false} ApplyJoin(x: Effects, y: Effects, e: Event)
    ensures Apply(Join(x, y), e) == Join(x, Apply(y, e))
  {
  }

  lemma {:induction false} ProjectConcat(a: seq<Event>, b: seq<Event>)
    ensures Project(a + b) == Join(Project(a), Project(b))
  {
    if b == [] {
      assert a + b == a;
    } else {
      hide Apply, Join;
      var n := |b| - 1;
      ProjectConcat(a, b[..n]);
      assert (a + b)[..|a + b| - 1] == a + b[..n];
      assert (a + b)[|a + b| - 1] == b[n];
      ApplyJoin(Project(a), Project(b[..n]), b[n]);
    }
  }

  // ---- effects, event by event ----

  /** The messages among the events. */
  ghost function MessagesIn(es: seq<Event>): seq<bytes> {
    if es == [] then [] else (if es[0].Message? then [es[0].payload] else []) + MessagesIn(es[1..])
  }

  /** The replies due: the payload of each Ping, or its first 125 bytes. */
  ghost function RepliesIn(es: seq<Event>): seq<bytes> {
    if es == [] then []
    else
      (if !es[0].SendPong? then []
       else if |es[0].payload| <= 125 then [es[0].payload]
       else [es[0].payload[..125]]) + RepliesIn(es[1..])
  }

  /** The payloads of the Pongs. */
  ghost function AcksIn(es: seq<Event>): seq<bytes> {
    if es == [] then [] else (if es[0].Pong? then [es[0].payload] else []) + AcksIn(es[1..])
  }

  ghost function AcceptedIn(es: seq<Event>): seq<Event> {
    if es == [] then [] else (if es[0].Accepted? then [es[0]] else []) + AcceptedIn(es[1..])
  }

  /** The first rejection, Close or protocol error. */
  ghost function EndIn(es: seq<Event>): Option<Event> {
    if es == [] then None
    else if es[0].Rejected? || es[0].Close? || es[0].ProtocolError? then Some(es[0])
    else EndIn(es[1..])
  }

  /** Effects are the events sorted by kind, each kind in order. */
  lemma {:induction false} EffectsAre(es: seq<Event>)
    ensures Project(es) == Effects(MessagesIn(es), RepliesIn(es), AcksIn(es), AcceptedIn(es), EndIn(es))
  {
    if es != [] {
      hide Project, Apply, Join;
      assert es == [es[0]] + es[1..];
      EffectsAre(es[1..]);
      EffectOne(es[0]);
      ProjectConcat([es[0]], es[1..]);
      EffectFirst(es[0], Project(es[1..]));
    }
  }

  /** One event in front of others. */
  lemma {:induction false} EffectFirst(e: Event, x: Effects)
    ensures Join(Apply(NO_EFFECTS, e), x) ==
            Effects(
              (if e.Message? then [e.payload] else []) + x.messages,
              (if !e.SendPong? then [] else if |e.payload| <= 125 then [e.payload] else [e.payload[..125]]) + x.replies,
              (if e.Pong? then [e.payload] else []) + x.acks,
              (if e.Accepted? then [e] else []) + x.accepted,
              if e.Rejected? || e.Close? || e.ProtocolError? then Some(e) else x.terminal)
  {
    if e.SendPong? { assert e.payload[..|e.payload|] == e.payload; }
  }

  lemma {:induction false} EffectOne(e: Event)
    ensures Project([e]) == Apply(NO_EFFECTS, e)
  {
    assert [e][..0] == [];
  }

  lemma {:induction false} JoinApply(x: Effects, e: Event)
    ensures Join(x, Project([e])) == Apply(x, e)
  {
    EffectOne(e);
    hide Project;
  }

  lemma {:induction false} JoinNothing(x: Effects)
    ensures Join(x, Project([])) == x && Join(x, NO_EFFECTS) == x
  {
  }

  lemma {:induction false} JoinAssociative(x: Effects, y: Effects, z: Effects)
    ensures Join(Join(x, y), z) == Join(x, Join(y, z))
  {
    assert (x.messages + y.messages) + z.messages == x.messages + (y.messages + z.messages);
    assert (x.replies + y.replies) + z.replies == x.replies + (y.replies + z.replies);
    assert (x.acks + y.acks) + z.acks == x.acks + (y.acks + z.acks);
    assert (x.accepted + y.accepted) + z.accepted == x.accepted + (y.accepted + z.accepted);
  }

  /** Doing the first event and owing the rest is owing both. */
  lemma {:induction false} PayEvent(x: Effects, e: Event, es: seq<Event>)
    ensures Join(x, Project([e] + es)) == Join(Apply(x, e), Project(es))
  {
    hide Join, Apply, Project;
    ProjectConcat([e], es);
    JoinAssociative(x, Project([e]), Project(es));
    JoinApply(x, e);
  }

  lemma {:induction false} PayEvents(x: Effects, es: seq<Event>, rest: seq<Event>)
    ensures Join(x, Project(es + rest)) == Join(Join(x, Project(es)), Project(rest))
  {
    hide Join, Project;
    ProjectConcat(es, rest);
    JoinAssociative(x, Project(es), Project(rest));
  }

  /** Effects of a scan whose Pong replies and acknowledgments are still queued. */
  function Queued(x: Effects, pongs: seq<bytes>, acks: seq<bytes>): Effects {
    x.(replies := x.replies + pongs, acks := x.acks + acks)
  }

  /** Queueing one visited frame's reply or acknowledgment instead of acting at once. */
  lemma {:induction false} QueueVisit(x: Effects, pongs: seq<bytes>, acks: seq<bytes>, f: FastFrame)
    requires f.opcode != OP_CLOSE
    ensures Join(Queued(x, pongs, acks), Project(FastEvent(f))) ==
            if f.opcode == OP_TEXT || f.opcode == OP_BINARY then
              Queued(x.(messages := x.messages + [f.payload]), pongs, acks)
            else if f.opcode == OP_PING then Queued(x, pongs + [Cut(f.payload)], acks)
            else if f.opcode == OP_PONG then Queued(x, pongs, acks + [f.payload])
            else Queued(x, pongs, acks)
  {
    var q := Queued(x, pongs, acks);
    if FastEvent(f) == [] {
      JoinNothing(q);
    } else {
      JoinApply(q, FastEvent(f)[0]);
      ConcatAssociative(x.replies, pongs, [Cut(f.payload)]);
      ConcatAssociative(x.acks, acks, [f.payload]);
    }
  }

  ghost function WalkOutcome(data: bytes, off: nat): (o: ScanOutcome)
    requires off <= |data|
    ensures o.consumed <= |data|
  {
    WalkFrom(data, off).outcome
  }

  /** Effects of the frames the walk visits from `off` on. */
  ghost function WalkEffects(data: bytes, off: nat): Effects
    requires off <= |data|
  {
    Project(FastEvents(WalkFrom(data, off).frames))
  }

  /** One iteration of the walk either ends it or visits one more frame. */
  lemma {:induction false} WalkHere(data: bytes, off: nat)
    requires off <= |data|
    ensures match LookAt(data, off)
            case Stop(outcome) => WalkOutcome(data, off) == outcome && WalkEffects(data, off) == NO_EFFECTS
            case Visit(f, next) =>
              if f.opcode == OP_CLOSE then
                && WalkOutcome(data, off) == Stopped(next)
                && WalkEffects(data, off) == Project([ParseClosePayload(f.payload)])
              else
                && WalkOutcome(data, off) == WalkOutcome(data, next)
                && WalkEffects(data, off) == Join(Project(FastEvent(f)), WalkEffects(data, next))
  {
    hide LookAt, Project, Join;
    match LookAt(data, off)
    case Stop(_) => assert Project([]) == NO_EFFECTS by { ProjectNothing(); }
    case Visit(f, next) =>
      if f.opcode == OP_CLOSE {
        assert FastEvents([f]) == FastEvent(f);
      } else {
        var later := WalkFrom(data, next).frames;
        assert ([f] + later)[1..] == later;
        ProjectConcat(FastEvent(f), FastEvents(later));
      }
  }

  lemma {:induction false} ProjectNothing()
    ensures Project([]) == NO_EFFECTS
  {
  }

  /** The terminal effect is present exactly when the run has halted. */
  lemma {:induction false} TerminalEffect(es: seq<Event>)
    requires forall i :: 0 <= i < |es| - 1 ==> !Terminal(es[i])
    ensures Project(es).terminal ==
            if es != [] && Terminal(es[|es| - 1]) then Some(es[|es| - 1]) else None
  {
    if es != [] {
      TerminalEffect(es[..|es| - 1]);
    }
  }

  /** Appending `data` to the stream leaves owed exactly what the stuck remainder and `data` give. */
  lemma {:induction false} ArrivalExtends(env: Env, init: Core, stream: bytes, c: Core, x: bytes, data: bytes,
    fx: Effects)
    requires fx.terminal.None? && Step1(env, c, x).NeedMore?
    requires var whole, o := Run(env, init, stream), Run(env, c, x);
             Project(whole.events) == Join(fx, Project(o.events)) && whole.core == o.core && whole.rest == o.rest
    ensures var whole, o := Run(env, init, stream + data), Run(env, c, x + data);
            Project(whole.events) == Join(fx, Project(o.events)) && whole.core == o.core && whole.rest == o.rest
  {
    hide Run, Step1, Project, Join, Terminal;
    RunUnfold(env, c, x, Step1(env, c, x));
    JoinNothing(fx);
    var whole := Run(env, init, stream);
    RunShape(env, init, stream);
    TerminalEffect(whole.events);
    assert !Halted(whole);
    RunSplit(env, init, stream, data);
    PayEvents(NO_EFFECTS, whole.events, Run(env, c, x + data).events);
    NothingJoins(Project(whole.events));
    NothingJoins(Project(Run(env, init, stream + data).events));
  }

  lemma {:induction false} NothingJoins(x: Effects)
    ensures Join(NO_EFFECTS, x) == x
  {
  }

  /** After a terminal event further bytes add no effect. */
  lemma {:induction false} HaltedForGood(env: Env, c: Core, a: bytes, b: bytes)
    requires Project(Run(env, c, a).events).terminal.Some?
    ensures Run(env, c, a + b).events == Run(env, c, a).events
  {
    hide Step1;
    RunShape(env, c, a);
    TerminalEffect(Run(env, c, a).events);
    RunSplit(env, c, a, b);
  }

  lemma {:induction false} IdleEffects(env: Env, c: Core, x: bytes, fx: Effects)
    requires Step1(env, c, x).NeedMore?
    ensures Join(fx, Project(Run(env, c, x).events)) == fx
  {
    hide Step1;
    RunUnfold(env, c, x, Step1(env, c, x));
    JoinNothing(fx);
  }
}
