/**
 What a whole connection must do, as a function of the steps it is put through: the
 bytes it hears, the operations its queues perform, the frames it sends.
 */
module Plan {
  import opened Common
  import opened Codec
  import opened Protocol
  import opened FastPath
  import Fragments
  import Order = DeliveryOrder
  import R = DeliveryRuns
  import opened ClientFrame
  import SendPath

  /** A step of the application or the network on one connection. */
  datatype Step =
    | Read(chunk: bytes)
    | Recv
    | Cancel(f: Order.Fut)
    | Probes(raising: set<Order.Fut>)
    | Send(message: SendPath.Outgoing, mask: bytes)
    | Pause
    | Resume
    | Drain
    | Shut

  /** Fixed for a connection: the foreign functions, and whether compression was offered. */
  datatype Setting = Setting(env: Env, offered: bool, compress: bytes -> bytes)

  /** Everything so far: bytes heard, local close, queue operations, frames accepted for
      sending, and control frames written. */
  datatype State = State(
    heard: bytes, shut: bool, ops: seq<R.Op>, sent: seq<WireFrame>, controls: seq<Clear>)

  const START := State([], false, [], [], [])

  /** The effects the bytes mean. */
  ghost function Fx(t: Setting, s: bytes): Effects { Project(Run(t.env, InitCore(t.offered), s).events) }

  /** Bytes are read until a terminal event or a local close. */
  ghost predicate Listening(t: Setting, p: State) { !p.shut && Fx(t, p.heard).terminal.None? }

  predicate Ends(terminal: Option<Event>) { terminal.Some? && !terminal.value.Rejected? }

  /** The transport is held until local close, peer close or protocol error. */
  ghost predicate Open(t: Setting, p: State) { !p.shut && !Ends(Fx(t, p.heard).terminal) }

  predicate AllCompressed(accepted: seq<Event>) { forall e :: e in accepted ==> e.Accepted? && e.compression }

  ghost function ModeFor(t: Setting, p: State): SendPath.Mode {
    var accepted := Fx(t, p.heard).accepted;
    SendPath.Mode(Open(t, p), accepted != [], t.offered && AllCompressed(accepted))
  }

  // ---- one read ----

  function Rest<T>(x: seq<T>, y: seq<T>): seq<T> { if |x| <= |y| then y[|x|..] else [] }

  function Accepts(n: nat): seq<R.Op> { seq(n, i => R.HandshakeAccepted) }

  function Arrives(messages: seq<bytes>): seq<R.Op> {
    seq(|messages|, i requires 0 <= i < |messages| => R.Arrive(messages[i], false))
  }

  function Acks(payloads: seq<bytes>): seq<R.Op> {
    seq(|payloads|, i requires 0 <= i < |payloads| => R.ArrivePong(payloads[i]))
  }

  function Ending(terminal: Option<Event>): seq<R.Op> {
    if terminal.None? then [] else if terminal.value.Rejected? then [R.HandshakeRejected] else [R.CloseConnection]
  }

  /** Queue operations of a read that takes the effects from `x` to `y`: the handshake
      result, every message and every acknowledgment once and in order, then the end. */
  function ReadOps(x: Effects, y: Effects): seq<R.Op> {
    Accepts(|Rest(x.accepted, y.accepted)|) + Arrives(Rest(x.messages, y.messages)) + Acks(Rest(x.acks, y.acks)) +
    Ending(y.terminal)
  }

  function Replies(payloads: seq<bytes>): seq<Clear> {
    seq(|payloads|, i requires 0 <= i < |payloads| => Clear(10, false, payloads[i]))
  }

  function FaultClose(terminal: Option<Event>): seq<Clear> {
    if terminal.Some? && terminal.value.ProtocolError? then
      var code := terminal.value.closeCode;
      [Clear(8, false, [code / 256, code % 256])]
    else []
  }

  /** Control frames of that read: every Pong reply in order, then the Close of an error. */
  function ReadControls(x: Effects, y: Effects): seq<Clear> {
    Replies(Rest(x.replies, y.replies)) + FaultClose(y.terminal)
  }

  // ---- what the operations of a read carry ----

  /** Operations the peer's bytes cause. */
  predicate FromPeer(op: R.Op) {
    || (op.Arrive? && !op.raises) || op.ArrivePong?
    || op.HandshakeAccepted? || op.HandshakeRejected? || op.CloseConnection?
  }

  ghost function PayloadOf(op: R.Op): seq<bytes> { if op.ArrivePong? then [op.payload] else [] }

  ghost function Messages(ops: seq<R.Op>): seq<bytes> {
    if ops == [] then [] else Messages(ops[..|ops| - 1]) + R.Arrived(ops[|ops| - 1])
  }

  ghost function Payloads(ops: seq<R.Op>): seq<bytes> {
    if ops == [] then [] else Payloads(ops[..|ops| - 1]) + PayloadOf(ops[|ops| - 1])
  }

  lemma {:induction false} CarrySnoc(ops: seq<R.Op>, op: R.Op)
    ensures Messages(ops + [op]) == Messages(ops) + R.Arrived(op)
    ensures Payloads(ops + [op]) == Payloads(ops) + PayloadOf(op)
  {
    hide R.Arrived, PayloadOf;
    assert (ops + [op])[..|ops|] == ops;
  }

  lemma {:induction false} SplitLast<T>(a: seq<T>, b: seq<T>)
    requires b != []
    ensures (a + b)[..|a + b| - 1] == a + b[..|b| - 1] && (a + b)[|a + b| - 1] == b[|b| - 1] && a + b != []
  {
  }

  lemma {:induction false} CarryConcat(a: seq<R.Op>, b: seq<R.Op>)
    ensures Messages(a + b) == Messages(a) + Messages(b) && Payloads(a + b) == Payloads(a) + Payloads(b)
  {
    hide R.Arrived, PayloadOf;
    if b == [] {
      assert a + b == a;
    } else {
      var init, last := b[..|b| - 1], b[|b| - 1];
      SplitLast(a, b);
      CarryConcat(a, init);
      ConcatAssociative(Messages(a), Messages(init), R.Arrived(last));
      ConcatAssociative(Payloads(a), Payloads(init), PayloadOf(last));
    }
  }

  lemma {:induction false} CarryNothing(ops: seq<R.Op>)
    requires forall op :: op in ops ==> !op.Arrive? && !op.ArrivePong?
    ensures Messages(ops) == [] && Payloads(ops) == []
  {
    if ops != [] { CarryNothing(ops[..|ops| - 1]); }
  }

  lemma {:induction false} ArrivesSnoc(ms: seq<bytes>, m: bytes)
    ensures Arrives(ms + [m]) == Arrives(ms) + [R.Arrive(m, false)]
  {
  }

  lemma {:induction false} ArrivesCarry(ms: seq<bytes>)
    ensures Messages(Arrives(ms)) == ms && Payloads(Arrives(ms)) == []
  {
    if ms != [] {
      var p, m := ms[..|ms| - 1], ms[|ms| - 1];
      assert ms == p + [m];
      ArrivesCarry(p);
      ArrivesSnoc(p, m);
      hide Arrives, Messages, Payloads;
      CarrySnoc(Arrives(p), R.Arrive(m, false));
    }
  }

  lemma {:induction false} AcksSnoc(ps: seq<bytes>, p: bytes)
    ensures Acks(ps + [p]) == Acks(ps) + [R.ArrivePong(p)]
  {
  }

  lemma {:induction false} AcksCarry(ps: seq<bytes>)
    ensures Payloads(Acks(ps)) == ps && Messages(Acks(ps)) == []
  {
    if ps != [] {
      var q, p := ps[..|ps| - 1], ps[|ps| - 1];
      assert ps == q + [p];
      AcksCarry(q);
      AcksSnoc(q, p);
      hide Acks, Messages, Payloads;
      CarrySnoc(Acks(q), R.ArrivePong(p));
    }
  }

  /** Effects `y` extend effects `x`. */
  ghost predicate Extends(x: Effects, y: Effects) {
    x.messages <= y.messages && x.replies <= y.replies && x.acks <= y.acks && x.accepted <= y.accepted
  }

  lemma {:induction false} EffectsGrow(env: Env, c: Core, a: bytes, b: bytes)
    ensures Extends(Project(Run(env, c, a).events), Project(Run(env, c, a + b).events))
  {
    hide Step1, Run, Project;
    var o := Run(env, c, a);
    RunSplit(env, c, a, b);
    if !Halted(o) { ProjectConcat(o.events, Run(env, o.core, o.rest + b).events); }
  }

  lemma {:induction false} RestCompletes<T>(x: seq<T>, y: seq<T>)
    requires x <= y
    ensures x + Rest(x, y) == y
  {
  }

  lemma {:induction false} CarryFour(a: seq<R.Op>, b: seq<R.Op>, c: seq<R.Op>, d: seq<R.Op>)
    requires Messages(a) == [] && Messages(c) == [] && Messages(d) == []
    requires Payloads(a) == [] && Payloads(b) == [] && Payloads(d) == []
    ensures Messages(a + b + c + d) == Messages(b) && Payloads(a + b + c + d) == Payloads(c)
  {
    hide Messages, Payloads;
    CarryConcat(a + b + c, d);
    CarryConcat(a + b, c);
    CarryConcat(a, b);
  }

  lemma {:induction false} FrameCarries(n: nat, terminal: Option<Event>)
    ensures Messages(Accepts(n)) == [] && Payloads(Accepts(n)) == []
    ensures Messages(Ending(terminal)) == [] && Payloads(Ending(terminal)) == []
  {
    hide Messages, Payloads;
    CarryNothing(Accepts(n));
    CarryNothing(Ending(terminal));
  }

  lemma {:induction false} ReadOpsAre(x: Effects, y: Effects)
    requires Extends(x, y)
    ensures ReadOps(x, y) ==
            Accepts(|y.accepted| - |x.accepted|) + Arrives(y.messages[|x.messages|..]) + Acks(y.acks[|x.acks|..])
            + Ending(y.terminal)
  {
    hide Accepts, Arrives, Acks, Ending;
  }

  /** The operations of a read carry exactly its new messages and acknowledgments. */
  lemma {:induction false} ReadOpsCarry(x: Effects, y: Effects)
    requires Extends(x, y)
    ensures x.messages + Messages(ReadOps(x, y)) == y.messages && x.acks + Payloads(ReadOps(x, y)) == y.acks
  {
    hide Messages, Payloads, Arrives, Acks, Accepts, Ending, Rest;
    var ms, ps := Rest(x.messages, y.messages), Rest(x.acks, y.acks);
    var n := |Rest(x.accepted, y.accepted)|;
    RestCompletes(x.messages, y.messages);
    RestCompletes(x.acks, y.acks);
    FrameCarries(n, y.terminal);
    ArrivesCarry(ms);
    AcksCarry(ps);
    CarryFour(Accepts(n), Arrives(ms), Acks(ps), Ending(y.terminal));
  }

  lemma {:induction false} PartsFromPeer(n: nat, ms: seq<bytes>, ps: seq<bytes>, terminal: Option<Event>)
    ensures forall op :: op in Accepts(n) ==> FromPeer(op) && !op.CloseConnection?
    ensures forall op :: op in Arrives(ms) ==> FromPeer(op) && !op.CloseConnection?
    ensures forall op :: op in Acks(ps) ==> FromPeer(op) && !op.CloseConnection?
    ensures forall op :: op in Ending(terminal) ==> FromPeer(op)
    ensures R.CloseConnection in Ending(terminal) <==> Ends(terminal)
  {
  }

  /** A read performs only what its bytes cause, and closes exactly if they end the connection. */
  lemma {:induction false} ReadOpsFromPeer(x: Effects, y: Effects)
    ensures forall op :: op in ReadOps(x, y) ==> FromPeer(op)
    ensures R.CloseConnection in ReadOps(x, y) <==> Ends(y.terminal)
  {
    PartsFromPeer(|Rest(x.accepted, y.accepted)|, Rest(x.messages, y.messages), Rest(x.acks, y.acks), y.terminal);
    hide Accepts, Arrives, Acks, Ending, Rest, FromPeer;
  }

  // ---- one step ----

  ghost function Next(t: Setting, p: State, step: Step): State {
    match step
    case Read(chunk) =>
      if !Listening(t, p) then p
      else
        var x, y := Fx(t, p.heard), Fx(t, p.heard + chunk);
        p.(heard := p.heard + chunk, ops := p.ops + ReadOps(x, y), controls := p.controls + ReadControls(x, y))
    case Recv => p.(ops := p.ops + [R.CallRecv])
    case Cancel(f) => p.(ops := p.ops + [R.CancelFuture(f)])
    case Probes(raising) => p.(ops := p.ops + [R.ChangeProbes(raising)])
    case Send(message, mask) =>
      p.(sent := p.sent + SendPath.SentBy(t.compress, ModeFor(t, p), SendPath.Message(message, mask)))
    case Shut =>
      p.(shut := true, ops := p.ops + [R.CloseConnection],
         controls := p.controls + if Open(t, p) then [Clear(8, false, [])] else [])
    case _ => p
  }

  ghost function After(t: Setting, steps: seq<Step>): State {
    if steps == [] then START else Next(t, After(t, steps[..|steps| - 1]), steps[|steps| - 1])
  }

  lemma {:induction false} AfterNext(t: Setting, steps: seq<Step>, i: nat)
    requires i < |steps|
    ensures After(t, steps[..i + 1]) == Next(t, After(t, steps[..i]), steps[i])
  {
    hide Next;
    assert steps[..i + 1][..i] == steps[..i];
  }

  // ---- what is heard ----

  /** The bytes of all reads before a local close. */
  function Inbound(steps: seq<Step>): bytes {
    if steps == [] then []
    else
      var n := |steps| - 1;
      Inbound(steps[..n]) + if steps[n].Read? && Shut !in steps[..n] then steps[n].chunk else []
  }

  /** Reads after a terminal event are not heard, and would change nothing. */
  lemma {:induction false} HeardIsInbound(t: Setting, steps: seq<Step>)
    ensures var p := After(t, steps);
            && (p.shut <==> Shut in steps) && Fx(t, p.heard) == Fx(t, Inbound(steps))
            && (Fx(t, p.heard).terminal.None? ==> p.heard == Inbound(steps))
  {
    hide Fx, ModeFor, SendPath.SentBy, ReadOps, ReadControls;
    if steps != [] {
      var n := |steps| - 1;
      HeardIsInbound(t, steps[..n]);
      assert steps == steps[..n] + [steps[n]];
      var a := Inbound(steps[..n]);
      assert a + [] == a;
      if steps[n].Read? && Fx(t, a).terminal.Some? { HeardNoMore(t, a, steps[n].chunk); }
    }
  }

  lemma {:induction false} HeardNoMore(t: Setting, a: bytes, b: bytes)
    requires Fx(t, a).terminal.Some?
    ensures Fx(t, a + b) == Fx(t, a)
  {
    hide Run, Project;
    HaltedForGood(t.env, InitCore(t.offered), a, b);
  }

  // ---- what is sent ----

  /** The frame one step asks for, if the bytes heard have the effects `fx`. */
  ghost function SendOf(t: Setting, shut: bool, fx: Effects, step: Step): seq<Clear> {
    if step.Send? && !shut && !Ends(fx.terminal) && fx.accepted != [] then
      SendPath.Wanted(t.compress, t.offered && AllCompressed(fx.accepted), step.message)
    else []
  }

  /** The frames the send() steps ask for: made after acceptance and before the end of the
      connection, compressed as negotiated. */
  ghost function SendsOf(t: Setting, steps: seq<Step>): seq<Clear> {
    if steps == [] then []
    else
      var n := |steps| - 1;
      SendsOf(t, steps[..n]) + SendOf(t, Shut in steps[..n], Fx(t, Inbound(steps[..n])), steps[n])
  }

  lemma {:induction false} NextSends(t: Setting, p: State, step: Step)
    ensures AllInClear(Next(t, p, step).sent) == AllInClear(p.sent) + SendOf(t, p.shut, Fx(t, p.heard), step)
  {
    hide Fx, AllCompressed, Ends, ReadOps, ReadControls, AllInClear, SendPath.SentBy, SendPath.Wanted;
    assert AllInClear(p.sent) + [] == AllInClear(p.sent);
    if step.Send? {
      var op := SendPath.Message(step.message, step.mask);
      SendPath.SentOneIsWanted(t.compress, ModeFor(t, p), op);
      SendPath.AllInClearConcat(p.sent, SendPath.SentBy(t.compress, ModeFor(t, p), op));
    }
  }

  lemma {:induction false} SendsAre(t: Setting, steps: seq<Step>)
    ensures AllInClear(After(t, steps).sent) == SendsOf(t, steps)
  {
    hide Fx, Next, Inbound, SendOf;
    if steps == [] {
      assert AllInClear([]) == [];
    } else {
      var n := |steps| - 1;
      SendsAre(t, steps[..n]);
      HeardIsInbound(t, steps[..n]);
      NextSends(t, After(t, steps[..n]), steps[n]);
    }
  }

  // ---- the calls among the queue operations ----

  predicate IsCall(op: R.Op) { op.CallRecv? || op.CancelFuture? || op.ChangeProbes? }

  function Calls(ops: seq<R.Op>): seq<R.Op> {
    if ops == [] then [] else Calls(ops[..|ops| - 1]) + if IsCall(ops[|ops| - 1]) then [ops[|ops| - 1]] else []
  }

  function CallOf(step: Step): seq<R.Op> {
    match step
    case Recv => [R.CallRecv]
    case Cancel(f) => [R.CancelFuture(f)]
    case Probes(raising) => [R.ChangeProbes(raising)]
    case _ => []
  }

  function CallsOf(steps: seq<Step>): seq<R.Op> {
    if steps == [] then [] else CallsOf(steps[..|steps| - 1]) + CallOf(steps[|steps| - 1])
  }

  lemma {:induction false} CallsConcat(a: seq<R.Op>, b: seq<R.Op>)
    ensures Calls(a + b) == Calls(a) + Calls(b)
  {
    hide IsCall;
    if b == [] {
      assert a + b == a;
    } else {
      SplitLast(a, b);
      CallsConcat(a, b[..|b| - 1]);
    }
  }

  lemma {:induction false} NoCalls(ops: seq<R.Op>)
    requires forall op :: op in ops ==> !IsCall(op)
    ensures Calls(ops) == []
  {
    if ops != [] { NoCalls(ops[..|ops| - 1]); }
  }

  lemma {:induction false} NextCalls(t: Setting, p: State, step: Step)
    ensures Calls(Next(t, p, step).ops) == Calls(p.ops) + CallOf(step)
  {
    hide Calls, Fx, Open, ModeFor, SendPath.SentBy, ReadOps, ReadControls;
    assert Calls(p.ops) + [] == Calls(p.ops);
    if step.Read? {
      var ops := ReadOps(Fx(t, p.heard), Fx(t, p.heard + step.chunk));
      ReadOpsFromPeer(Fx(t, p.heard), Fx(t, p.heard + step.chunk));
      NoCalls(ops);
      CallsConcat(p.ops, ops);
    } else {
      var ops := if step.Shut? then [R.CloseConnection] else CallOf(step);
      CallsConcat(p.ops, ops);
      OneCall(ops);
      assert p.ops + [] == p.ops;
    }
  }

  lemma {:induction false} OneCall(ops: seq<R.Op>)
    requires |ops| <= 1
    ensures Calls(ops) == if ops != [] && IsCall(ops[0]) then ops else []
  {
    if ops != [] { assert ops[..0] == [] && ops == [ops[0]]; }
  }

  /** The recv() calls, cancellations and probe changes of the queues are those of the
      steps, in order. */
  lemma {:induction false} CallsAreSteps(t: Setting, steps: seq<Step>)
    ensures Calls(After(t, steps).ops) == CallsOf(steps)
  {
    hide Next, CallOf;
    if steps != [] {
      var n := |steps| - 1;
      CallsAreSteps(t, steps[..n]);
      NextCalls(t, After(t, steps[..n]), steps[n]);
    }
  }

  lemma {:induction false} CallMembers(ops: seq<R.Op>, op: R.Op)
    requires op in ops && IsCall(op)
    ensures op in Calls(ops)
  {
    var n := |ops| - 1;
    assert ops == ops[..n] + [ops[n]];
    if op in ops[..n] { CallMembers(ops[..n], op); }
  }

  lemma {:induction false} StepOfCall(steps: seq<Step>, f: Order.Fut)
    requires R.CancelFuture(f) in CallsOf(steps)
    ensures Cancel(f) in steps
  {
    var n := |steps| - 1;
    assert steps == steps[..n] + [steps[n]];
    if R.CancelFuture(f) in CallsOf(steps[..n]) { StepOfCall(steps[..n], f); }
  }

  /** A cancellation the queues saw is one of the steps. */
  lemma {:induction false} CancelIsStep(ops: seq<R.Op>, steps: seq<Step>, f: Order.Fut)
    requires Calls(ops) == CallsOf(steps) && R.CancelFuture(f) in ops
    ensures Cancel(f) in steps
  {
    hide Calls, CallsOf;
    CallMembers(ops, R.CancelFuture(f));
    StepOfCall(steps, f);
  }

  // ---- closed forms ----

  predicate IsVerdict(op: R.Op) { op.HandshakeAccepted? || op.HandshakeRejected? }

  /** The handshake results among the operations. */
  function Verdicts(ops: seq<R.Op>): seq<R.Op> {
    if ops == [] then [] else Verdicts(ops[..|ops| - 1]) + if IsVerdict(ops[|ops| - 1]) then [ops[|ops| - 1]] else []
  }

  /** The handshake results the effects call for. */
  function VerdictsOf(fx: Effects): seq<R.Op> {
    Accepts(|fx.accepted|) + if fx.terminal.Some? && fx.terminal.value.Rejected? then [R.HandshakeRejected] else []
  }

  /** The control frames the effects call for: every reply in order, then the Close frame
      of a protocol error, or of a local close of a connection still open. */
  function ControlsOf(fx: Effects, shut: bool): seq<Clear> {
    Replies(fx.replies) + FaultClose(fx.terminal) +
    if shut && !Ends(fx.terminal) then [Clear(8, false, [])] else []
  }

  lemma {:induction false} VerdictsConcat(a: seq<R.Op>, b: seq<R.Op>)
    ensures Verdicts(a + b) == Verdicts(a) + Verdicts(b)
  {
    hide IsVerdict;
    if b == [] {
      assert a + b == a;
    } else {
      SplitLast(a, b);
      VerdictsConcat(a, b[..|b| - 1]);
    }
  }

  lemma {:induction false} NoVerdicts(ops: seq<R.Op>)
    requires forall op :: op in ops ==> !IsVerdict(op)
    ensures Verdicts(ops) == []
  {
    if ops != [] { NoVerdicts(ops[..|ops| - 1]); }
  }

  lemma {:induction false} AllVerdicts(ops: seq<R.Op>)
    requires forall op :: op in ops ==> IsVerdict(op)
    ensures Verdicts(ops) == ops
  {
    if ops != [] {
      AllVerdicts(ops[..|ops| - 1]);
      assert ops == ops[..|ops| - 1] + [ops[|ops| - 1]];
    }
  }

  lemma {:induction false} VerdictMembers(ops: seq<R.Op>, op: R.Op)
    ensures op in Verdicts(ops) <==> op in ops && IsVerdict(op)
  {
    if ops != [] {
      var n := |ops| - 1;
      VerdictMembers(ops[..n], op);
      assert ops == ops[..n] + [ops[n]];
    }
  }

  /** Nothing in a plan comes from a TLS failure or from the middle of a scan. */
  predicate Plain(op: R.Op) { !op.TlsFailed? && !op.HoldPong? && !(op.Arrive? && op.raises) }

  lemma {:induction false} PlainPlan(t: Setting, steps: seq<Step>)
    ensures forall op :: op in After(t, steps).ops ==> Plain(op)
  {
    hide Next, Plain;
    if steps != [] {
      var n := |steps| - 1;
      PlainPlan(t, steps[..n]);
      NextPlain(t, After(t, steps[..n]), steps[n]);
    }
  }

  lemma {:induction false} NextPlain(t: Setting, p: State, step: Step)
    requires forall op :: op in p.ops ==> Plain(op)
    ensures forall op :: op in Next(t, p, step).ops ==> Plain(op)
  {
    hide Fx, Open, ModeFor, SendPath.SentBy, ReadOps, ReadControls;
    if step.Read? { ReadOpsFromPeer(Fx(t, p.heard), Fx(t, p.heard + step.chunk)); }
  }

  /** A rejected handshake, whatever follows it. */
  lemma {:induction false} RejectedEffects(t: Setting, header: bytes, rest: bytes)
    requires FindHeaderEnd(header) == Some(|header|) && t.env.judge(header).Reject?
    ensures Fx(t, header + rest) == Effects([], [], [], [], Some(Rejected(t.env.judge(header).status)))
  {
    Fragments.StreamRejected(t.env, t.offered, header, rest);
    EffectOne(Rejected(t.env.judge(header).status));
    hide Run, Project, FindHeaderEnd;
  }

  /** Without an acceptance nothing is sent. */
  lemma {:induction false} NothingSent(t: Setting, steps: seq<Step>)
    requires Fx(t, Inbound(steps)).accepted == []
    ensures SendsOf(t, steps) == []
  {
    if steps != [] {
      var n := |steps| - 1;
      var a, b := Inbound(steps[..n]), if steps[n].Read? && Shut !in steps[..n] then steps[n].chunk else [];
      EffectsGrow(t.env, InitCore(t.offered), a, b);
      assert Fx(t, a).accepted <= Fx(t, a + b).accepted;
      hide Fx, AllCompressed;
      NothingSent(t, steps[..n]);
    }
  }

  lemma {:induction false} PartVerdicts(n: nat, ms: seq<bytes>, ps: seq<bytes>, terminal: Option<Event>)
    ensures Verdicts(Accepts(n)) == Accepts(n) && Verdicts(Arrives(ms)) == [] && Verdicts(Acks(ps)) == []
    ensures Verdicts(Ending(terminal)) ==
            if terminal.Some? && terminal.value.Rejected? then [R.HandshakeRejected] else []
  {
    hide Verdicts;
    AllVerdicts(Accepts(n));
    NoVerdicts(Arrives(ms));
    NoVerdicts(Acks(ps));
    if terminal.Some? && terminal.value.Rejected? {
      AllVerdicts(Ending(terminal));
    } else {
      NoVerdicts(Ending(terminal));
    }
  }

  lemma {:induction false} VerdictsFour(a: seq<R.Op>, b: seq<R.Op>, c: seq<R.Op>, d: seq<R.Op>)
    requires Verdicts(b) == [] && Verdicts(c) == []
    ensures Verdicts(a + b + c + d) == Verdicts(a) + Verdicts(d)
  {
    hide Verdicts;
    VerdictsConcat(a + b + c, d);
    VerdictsConcat(a + b, c);
    VerdictsConcat(a, b);
  }

  lemma {:induction false} ReadVerdicts(x: Effects, y: Effects)
    requires Extends(x, y) && x.terminal.None?
    ensures VerdictsOf(x) + Verdicts(ReadOps(x, y)) == VerdictsOf(y)
  {
    var n, ms, ps := |Rest(x.accepted, y.accepted)|, Rest(x.messages, y.messages), Rest(x.acks, y.acks);
    assert Accepts(|x.accepted|) + Accepts(n) == Accepts(|y.accepted|);
    hide Accepts, Arrives, Acks, Ending, Verdicts, Rest;
    PartVerdicts(n, ms, ps, y.terminal);
    VerdictsFour(Accepts(n), Arrives(ms), Acks(ps), Ending(y.terminal));
    assert Accepts(|x.accepted|) + [] == Accepts(|x.accepted|);
    ConcatAssociative(Accepts(|x.accepted|), Accepts(n), Verdicts(Ending(y.terminal)));
  }

  lemma {:induction false} ReadControlsAre(x: Effects, y: Effects)
    requires Extends(x, y) && x.terminal.None?
    ensures ControlsOf(x, false) + ReadControls(x, y) == ControlsOf(y, false)
  {
    var ps := Rest(x.replies, y.replies);
    RestCompletes(x.replies, y.replies);
    assert Replies(x.replies + ps) == Replies(x.replies) + Replies(ps);
    hide Replies, Rest, FaultClose;
    assert FaultClose(None) == [] by { NoFault(); }
    assert Replies(x.replies) + [] + [] == Replies(x.replies);
    ConcatAssociative(Replies(x.replies), Replies(ps), FaultClose(y.terminal));
    assert Replies(y.replies) + FaultClose(y.terminal) + [] == Replies(y.replies) + FaultClose(y.terminal);
  }

  lemma {:induction false} NoFault()
    ensures FaultClose(None) == []
  {
  }

  /** Handshake results and control frames so far are those of the bytes heard. */
  ghost predicate InForm(t: Setting, p: State) {
    var fx := Fx(t, p.heard);
    Verdicts(p.ops) == VerdictsOf(fx) && p.controls == ControlsOf(fx, p.shut)
  }

  lemma {:induction false} NextInForm(t: Setting, p: State, step: Step)
    requires InForm(t, p)
    ensures InForm(t, Next(t, p, step))
  {
    hide Fx, Verdicts, ModeFor, SendPath.SentBy, ReadOps, ReadControls, VerdictsOf, Replies, FaultClose;
    assert Verdicts(p.ops) + [] == Verdicts(p.ops);
    if step.Read? {
      if Listening(t, p) { ReadInForm(t, p, step.chunk); }
    } else if step.Shut? {
      VerdictsConcat(p.ops, [R.CloseConnection]);
      NoVerdicts([R.CloseConnection]);
      var base := Replies(Fx(t, p.heard).replies) + FaultClose(Fx(t, p.heard).terminal);
      assert base + [] == base;
      assert p.controls + [] == p.controls;
    } else {
      VerdictsConcat(p.ops, CallOf(step));
      NoVerdicts(CallOf(step));
      assert p.ops + [] == p.ops;
    }
  }

  lemma {:induction false} ReadInForm(t: Setting, p: State, chunk: bytes)
    requires InForm(t, p) && Listening(t, p)
    ensures InForm(t, Next(t, p, Read(chunk)))
  {
    var x, y := Fx(t, p.heard), Fx(t, p.heard + chunk);
    assert Extends(x, y) by { EffectsGrow(t.env, InitCore(t.offered), p.heard, chunk); }
    hide Fx, Verdicts, VerdictsOf, ControlsOf, ReadOps, ReadControls, Extends;
    VerdictsConcat(p.ops, ReadOps(x, y));
    ReadVerdicts(x, y);
    ReadControlsAre(x, y);
  }

  /** On every run the handshake results and the control frames have their closed forms. */
  lemma {:induction false} ClosedForms(t: Setting, steps: seq<Step>)
    ensures var p := After(t, steps);
            var fx := Fx(t, p.heard);
            Verdicts(p.ops) == VerdictsOf(fx) && p.controls == ControlsOf(fx, p.shut)
  {
    hide Fx, Next, After, Verdicts, VerdictsOf, ControlsOf;
    AfterInForm(t, steps);
  }

  lemma {:induction false} AfterInForm(t: Setting, steps: seq<Step>)
    ensures InForm(t, After(t, steps))
  {
    if steps == [] {
      assert Fx(t, []) == NO_EFFECTS by {
        NothingToDo(t.env, InitCore(t.offered));
        RunUnfold(t.env, InitCore(t.offered), [], Step1(t.env, InitCore(t.offered), []));
      }
      assert After(t, steps) == START;
      hide Fx;
    } else {
      hide Next, InForm;
      var n := |steps| - 1;
      AfterInForm(t, steps[..n]);
      NextInForm(t, After(t, steps[..n]), steps[n]);
    }
  }
}
