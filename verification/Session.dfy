/**
 The whole client: received bytes go through the parsers, messages and acknowledgments
 to the queues, Pong replies and Close frames to the send path.
 */
module Session {
  import opened Common
  import opened Codec
  import opened Protocol
  import opened FastPath
  import opened Receive
  import Order = DeliveryOrder
  import D = Delivery
  import R = DeliveryRuns
  import Fates = DeliveryFates
  import Mailbox
  import opened ClientFrame
  import SendPath
  import P = Plan

  // ---- the parsers ----

  /** Replies never exceed the control-frame limit, and only acceptances are recorded as such. */
  ghost predicate Tidy(x: Effects) {
    && (forall p :: p in x.replies ==> |p| <= 125) && (forall e :: e in x.accepted ==> e.Accepted?)
    && (x.terminal.Some? ==> Terminal(x.terminal.value))
  }

  lemma {:induction false} EffectsTidy(es: seq<Event>)
    ensures Tidy(Project(es))
  {
    if es != [] { EffectsTidy(es[..|es| - 1]); }
  }

  ghost function Whole(client: NativeClient): Effects
    reads client
  {
    Project(Run(client.env, InitCore(client.offered), client.stream).events)
  }

  lemma {:induction false} ClientAgrees(client: NativeClient)
    requires client.Valid()
    ensures client.fx == Whole(client)
  {
    hide Run, Step1, Project, Join, WalkFrom;
    if !client.Finished() { IdleEffects(client.env, client.State(), client.buf + client.recvBuf, client.fx); }
  }

  /** One read through the chosen entry path only adds effects. */
  method ReadBytes(client: NativeClient, path: Path, chunk: bytes)
    requires client.Idle() && (path.Buffered? || client.recvBuf == [])
    modifies client
    ensures client.Valid() && (path.Buffered? || client.recvBuf == [])
    ensures client.stream == old(client.stream) + chunk
    ensures P.Extends(old(client.fx), client.fx) && client.fx == Whole(client)
  {
    hide Run, Step1, Project, Join, WalkFrom;
    ClientAgrees(client);
    P.EffectsGrow(client.env, InitCore(client.offered), client.stream, chunk);
    match path {
      case PlainBytes => client.DataReceived(chunk);
      case Plaintext => client.DataReceivedPlaintext(chunk);
      case Buffered => client.BufferUpdated(chunk);
    }
    ClientAgrees(client);
  }

  // ---- the queues ----

  /** The queues are in the state of run `ops`, between scans, and no message was lost. */
  ghost predicate Follows(box: Mailbox.State, ops: seq<R.Op>)
    reads box
  {
    && box.Valid() && box.acks == [] && box.View() == R.After(ops) && R.NeverLoses(ops)
  }

  lemma {:induction false} StaysIdle(s: D.Box, op: R.Op)
    requires D.Sound(s) && s.acking == [] && !op.HoldPong? && !R.Loses(s, op)
    ensures R.Next(s, op).acking == []
  {
    hide D.Sound, D.Deliver, D.Recv, D.PingWaiter, D.IsRegistered;
    if op.Arrive? {
      D.DeliverCases(s, op.message, op.raises);
      D.SkipFindsFirstLive(s);
      D.SkipToLiveOk(s);
    }
    if op.CallRecv? && s.backlog == [] && !s.closed && s.bound { D.RecvParks(s); }
    if op.CallPing? { D.PingWaiterFrame(s, op.payload, op.writeOk); }
    RecvIdle(s);
    hide D.SkipToLive, D.FirstLive;
  }

  lemma {:induction false} RecvIdle(s: D.Box)
    requires D.Sound(s)
    ensures D.Recv(s).0.acking == s.acking
  {
    hide D.Sound;
  }

  lemma {:induction false} IdleBox(box: Mailbox.State)
    requires box.Valid()
    ensures box.View().acking == box.acks && box.View().futures == box.futures && box.View().closed == box.closed
  {
    hide D.Sound;
  }

  /** What `op` adds to the messages and Pongs of a run, between scans. */
  lemma {:induction false} OpAdds(ops: seq<R.Op>, op: R.Op)
    requires R.After(ops).acking == []
    ensures R.Arrivals(ops + [op]) == R.Arrivals(ops) + R.Arrived(op)
    ensures R.PongLog(ops + [op]) ==
            R.PongLog(ops) + if op.HoldPong? || op.ArrivePong? then [op.payload] else []
  {
    hide D.Sound, R.After;
    assert (ops + [op])[..|ops|] == ops;
  }

  /** One operation of the queues. Cancelling a Future that does not exist does nothing. */
  method Do(box: Mailbox.State, op: R.Op, ghost ops: seq<R.Op>)
    requires Follows(box, ops) && !op.HoldPong? && !R.Loses(box.View(), op)
    requires op.CancelFuture? || R.Enabled(box.View(), op)
    modifies box
    ensures Follows(box, ops + [op])
    ensures box.closed <==> old(box.closed) || op.CloseConnection? || (op.CallPing? && box.closed)
  {
    hide D.Sound, R.Next, R.Loses, R.After;
    ghost var s := box.View();
    ghost var ops' := ops + [op];
    assert ops'[..|ops|] == ops;
    IdleBox(box);
    StaysIdle(s, op);
    R.AfterAppend(ops, op);
    R.NeverLosesSnoc(ops');
    ClosedBy(s, op);
    if op.CancelFuture? && op.f >= |box.futures| {
      DisabledNothing(s, op);
      return;
    }
    var _ := Mailbox.Perform(box, op);
    IdleBox(box);
  }

  lemma {:induction false} DisabledNothing(s: D.Box, op: R.Op)
    requires D.Sound(s) && !R.Enabled(s, op)
    ensures R.Next(s, op) == s
  {
    hide D.Sound, R.Enabled;
  }

  lemma {:induction false} ClosedBy(s: D.Box, op: R.Op)
    requires D.Sound(s) && s.acking == []
    ensures var t := R.Next(s, op);
            t.closed <==> s.closed || op.CloseConnection? || (op.CallPing? && t.closed)
  {
    hide D.Sound, D.Deliver, D.Recv, D.PingWaiter, D.IsRegistered, R.Next;
    if op.Arrive? {
      D.DeliverOk(s, op.message, op.raises);
      R.NextArrive(s, op);
    } else if op.CallRecv? {
      D.RecvOk(s);
      R.NextRecv(s);
    } else if op.CallPing? {
      if s.closed { R.NextStaysClosed(s, op); }
    } else {
      OtherClosed(s, op);
    }
  }

  lemma {:induction false} OtherClosed(s: D.Box, op: R.Op)
    requires D.Sound(s) && s.acking == [] && !op.Arrive? && !op.CallRecv? && !op.CallPing?
    ensures R.Next(s, op).closed <==> s.closed || op.CloseConnection?
  {
    hide D.Sound, D.IsRegistered;
  }

  /** A run's messages and acknowledgments so far. */
  ghost predicate Tally(ops: seq<R.Op>, messages: seq<bytes>, acks: seq<bytes>) {
    R.Arrivals(ops) == messages && R.PongLog(ops) == acks
  }

  /** Perform a list of arrivals, Pongs, handshake results or the end, and keep count. */
  method DoAll(
    box: Mailbox.State, todo: seq<R.Op>, ghost ops: seq<R.Op>, ghost messages: seq<bytes>, ghost acks: seq<bytes>)
    requires Follows(box, ops) && Tally(ops, messages, acks)
    requires forall op :: op in todo ==> P.FromPeer(op)
    modifies box
    ensures Follows(box, ops + todo) && Tally(ops + todo, messages + P.Messages(todo), acks + P.Payloads(todo))
    ensures box.closed <==> old(box.closed) || R.CloseConnection in todo
  {
    hide D.Sound, R.After, R.Loses, R.Arrivals, R.PongLog, Follows;
    assert ops + [] == ops && messages + [] == messages && acks + [] == acks;
    for i := 0 to |todo|
      invariant Follows(box, ops + todo[..i])
      invariant Tally(ops + todo[..i], messages + P.Messages(todo[..i]), acks + P.Payloads(todo[..i]))
      invariant box.closed <==> old(box.closed) || R.CloseConnection in todo[..i]
    {
      var op := todo[i];
      assert op in todo;
      ghost var before := todo[..i];
      assert todo[..i + 1] == before + [op];
      DoOne(box, op, ops + before);
      assert (ops + before) + [op] == ops + todo[..i + 1];
      assert todo[..i + 1][..i] == before;
      ConcatAssociative(messages, P.Messages(before), R.Arrived(op));
      ConcatAssociative(acks, P.Payloads(before), P.PayloadOf(op));
    }
    assert todo[..|todo|] == todo;
  }

  method DoOne(box: Mailbox.State, op: R.Op, ghost ops: seq<R.Op>)
    requires Follows(box, ops) && P.FromPeer(op)
    modifies box
    ensures Follows(box, ops + [op])
    ensures R.Arrivals(ops + [op]) == R.Arrivals(ops) + R.Arrived(op)
    ensures R.PongLog(ops + [op]) == R.PongLog(ops) + P.PayloadOf(op)
    ensures box.closed <==> old(box.closed) || op.CloseConnection?
  {
    hide D.Sound, R.After;
    IdleBox(box);
    OpAdds(ops, op);
    Do(box, op, ops);
  }

  // ---- the wire ----

  /** Mode, accepted frames and control frames of the send path. */
  ghost predicate Wired(sender: SendPath.Sender, m: SendPath.Mode, b: seq<WireFrame>, c: seq<Clear>)
    reads sender
  {
    && sender.Valid() && SendPath.ModeOf(sender) == m && sender.sent == b
    && AllInClear(SendPath.ControlsOf(sender.wire)) == c
  }

  method SendOp(
    sender: SendPath.Sender, op: SendPath.Op, ghost m: SendPath.Mode, ghost b: seq<WireFrame>, ghost c: seq<Clear>)
    requires Wired(sender, m, b, c) && SendPath.OpOk(sender.compress, op)
    modifies sender
    ensures Wired(sender, SendPath.NextMode(m, op), b + SendPath.SentBy(sender.compress, m, op),
                  c + AllInClear(SendPath.ControlsBy(m, op)))
  {
    hide SendPath.NextMode, SendPath.SentBy, SendPath.ControlsBy, SendPath.ControlsOf, SendPath.OpOk, AllInClear;
    hide EncodeAll, SendPath.DataOf, SendPath.Encodings, Sendable;
    ghost var w := sender.wire;
    SendPath.Perform(sender, op);
    SendPath.AllInClearConcat(SendPath.ControlsOf(w), SendPath.ControlsBy(m, op));
  }

  /** An operation that neither sends data nor writes control frames. */
  method SendQuiet(
    sender: SendPath.Sender, op: SendPath.Op, ghost m: SendPath.Mode, ghost b: seq<WireFrame>, ghost c: seq<Clear>)
    requires Wired(sender, m, b, c) && (op.Pause? || op.Resume? || op.DrainSome? || op.Handshake?)
    modifies sender
    ensures Wired(sender, SendPath.NextMode(m, op), b, c)
  {
    SendOp(sender, op, m, b, c);
    assert b + [] == b && c + [] == c && AllInClear([]) == [];
  }

  /** Mask keys are random. */
  method ChooseMasks(n: nat) returns (masks: seq<bytes>)
    ensures |masks| == n && forall m :: m in masks ==> |m| == 4
  {
    masks := [];
    for i := 0 to n
      invariant |masks| == i && forall m :: m in masks ==> |m| == 4
    {
      var a: byte, b: byte, c: byte, d: byte := *, *, *, *;
      masks := masks + [[a, b, c, d]];
    }
  }

  /** What acceptances make of the mode. */
  function Negotiated(m: SendPath.Mode, accepted: seq<Event>): SendPath.Mode {
    SendPath.Mode(m.open, m.done || accepted != [], m.deflate && P.AllCompressed(accepted))
  }

  method Negotiate(
    sender: SendPath.Sender, accepted: seq<Event>, ghost m: SendPath.Mode, ghost b: seq<WireFrame>, ghost c: seq<Clear>)
    requires Wired(sender, m, b, c) && forall e :: e in accepted ==> e.Accepted?
    modifies sender
    ensures Wired(sender, Negotiated(m, accepted), b, c)
  {
    hide Wired;
    for i := 0 to |accepted|
      invariant Wired(sender, Negotiated(m, accepted[..i]), b, c)
    {
      assert accepted[i] in accepted && accepted[..i + 1] == accepted[..i] + [accepted[i]];
      SendQuiet(sender, SendPath.Handshake(accepted[i].compression), Negotiated(m, accepted[..i]), b, c);
    }
    assert accepted[..|accepted|] == accepted;
  }

  lemma {:induction false} ClearPongs(replies: seq<bytes>, masks: seq<bytes>)
    requires |replies| == |masks| && forall p :: p in replies ==> |p| <= 125
    ensures AllInClear(SendPath.Pongs(replies, masks)) == P.Replies(replies)
  {
    forall i | 0 <= i < |replies| ensures AllInClear(SendPath.Pongs(replies, masks))[i] == P.Replies(replies)[i] {
      assert replies[i] in replies;
      assert replies[i][..|replies[i]|] == replies[i];
    }
  }

  /** Write the replies of one read. */
  method Reply(sender: SendPath.Sender, replies: seq<bytes>, peerClose: bool,
               ghost m: SendPath.Mode, ghost b: seq<WireFrame>, ghost c: seq<Clear>)
    requires Wired(sender, m, b, c) && m.open && forall p :: p in replies ==> |p| <= 125
    modifies sender
    ensures Wired(sender, m.(open := !peerClose), b, c + P.Replies(replies))
  {
    hide Wired, SendPath.Pongs, AllInClear, P.Replies;
    var masks := ChooseMasks(|replies|);
    SendOp(sender, SendPath.Answer(replies, masks, peerClose), m, b, c);
    ClearPongs(replies, masks);
    assert b + [] == b;
  }

  /** Write the Close frame of a protocol error, if there is one. */
  method ReplyFault(sender: SendPath.Sender, terminal: Option<Event>,
                    ghost m: SendPath.Mode, ghost b: seq<WireFrame>, ghost c: seq<Clear>)
    requires Wired(sender, m, b, c) && m.open
    modifies sender
    ensures Wired(sender, m.(open := !(terminal.Some? && terminal.value.ProtocolError?)), b, c + P.FaultClose(terminal))
  {
    hide Wired, ToBigEndian;
    assert c + [] == c && b + [] == b;
    if terminal.Some? && terminal.value.ProtocolError? {
      var masks := ChooseMasks(1);
      assert masks[0] in masks;
      var code := terminal.value.closeCode;
      SendOp(sender, SendPath.Violation(code, masks[0]), m, b, c);
      SendPath.TwoByteCode(code);
      assert AllInClear([SendPath.CloseFrame(code, masks[0])]) == [Clear(8, false, [code / 256, code % 256])];
    }
  }

  // ---- the connection ----

  /** The queues after `ops`, which carry the messages and acknowledgments of `fx`. */
  ghost predicate InBox(box: Mailbox.State, ops: seq<R.Op>, fx: Effects, open: bool)
    reads box
  {
    Follows(box, ops) && Tally(ops, fx.messages, fx.acks) && (box.closed <==> !open)
  }

  /** The parsers after the bytes `heard`. */
  ghost predicate Hears(client: NativeClient, path: Path, heard: bytes)
    reads client
  {
    client.Valid() && (path.Buffered? || client.recvBuf == []) && client.stream == heard
  }

  /** Nothing has been read. */
  ghost predicate FreshClient(client: NativeClient)
    reads client
  {
    client.Idle() && client.stream == [] && client.recvBuf == [] && client.fx == NO_EFFECTS
  }

  /** Nothing has been delivered. */
  ghost predicate FreshBox(box: Mailbox.State)
    reads box
  {
    box.Valid() && box.View() == D.Init()
  }

  /** Nothing has been sent. */
  ghost predicate FreshSender(sender: SendPath.Sender, offered: bool)
    reads sender
  {
    && sender.Valid() && sender.wire == [] && sender.sent == []
    && SendPath.ModeOf(sender) == SendPath.Mode(true, false, offered)
  }

  ghost predicate Fresh(client: NativeClient, box: Mailbox.State, sender: SendPath.Sender)
    reads client, box, sender
  {
    FreshClient(client) && FreshBox(box) && FreshSender(sender, client.offered)
  }

  lemma {:induction false} FreshFits(client: NativeClient, box: Mailbox.State, sender: SendPath.Sender, path: Path)
    requires Fresh(client, box, sender)
    ensures Hears(client, path, []) && Whole(client) == NO_EFFECTS
    ensures P.Fx(P.Setting(client.env, client.offered, sender.compress), []) == NO_EFFECTS
    ensures InBox(box, [], NO_EFFECTS, true)
    ensures Wired(sender, SendPath.Mode(true, false, client.offered), [], [])
  {
    hide D.Sound, EncodeAll, SendPath.DataOf, SendPath.Encodings, Run, Step1, Project, Join, WalkFrom;
    ClientAgrees(client);
    IdleBox(box);
    assert R.After([]) == D.Init();
    assert R.NeverLoses([]);
  }

  class Connection {
    const client: NativeClient
    const box: Mailbox.State
    const sender: SendPath.Sender
    const path: Path
    var reading: bool
    /** What the steps so far call for. */
    ghost var plan: P.State

    ghost function Setting(): P.Setting { P.Setting(client.env, client.offered, sender.compress) }

    /** Parsers, queues and wire are exactly where the plan says. */
    ghost predicate Valid()
      reads this, client, box, sender
    {
      var t := Setting();
      && Hears(client, path, plan.heard) && (reading <==> P.Listening(t, plan))
      && InBox(box, plan.ops, P.Fx(t, plan.heard), P.Open(t, plan))
      && Wired(sender, P.ModeFor(t, plan), plan.sent, plan.controls)
    }

    constructor (client: NativeClient, box: Mailbox.State, sender: SendPath.Sender, path: Path)
      requires Fresh(client, box, sender)
      ensures Valid() && plan == P.START
      ensures this.client == client && this.box == box && this.sender == sender && this.path == path
    {
      hide *;
      this.client, this.box, this.sender, this.path, reading, plan := client, box, sender, path, true, P.START;
      new;
      FreshFits(client, box, sender, path);
      PlanFits();
    }

    lemma {:induction false} PlanFits()
      requires plan == P.START && reading && Hears(client, path, [])
      requires P.Fx(P.Setting(client.env, client.offered, sender.compress), []) == NO_EFFECTS
      requires InBox(box, [], NO_EFFECTS, true)
      requires Wired(sender, SendPath.Mode(true, false, client.offered), [], [])
      ensures Valid()
    {
      hide Hears, InBox, Wired, P.Fx;
    }

    /** Queue operations for the effects a read has added. */
    method Dispatch(x: Effects, y: Effects)
      requires P.Extends(x, y) && InBox(box, plan.ops, x, true)
      modifies box
      ensures InBox(box, plan.ops + P.ReadOps(x, y), y, !P.Ends(y.terminal))
    {
      hide Follows, Tally, P.ReadOps, P.Messages, P.Payloads;
      hide P.Accepts, P.Arrives, P.Acks, P.Ending, P.FromPeer, P.Ends;
      var todo := P.Accepts(|y.accepted| - |x.accepted|) + P.Arrives(y.messages[|x.messages|..])
        + P.Acks(y.acks[|x.acks|..]) + P.Ending(y.terminal);
      P.ReadOpsAre(x, y);
      P.ReadOpsCarry(x, y);
      P.ReadOpsFromPeer(x, y);
      DoAll(box, todo, plan.ops, x.messages, x.acks);
    }

    /** Act on the effects a read has added: queues first, then the wire. */
    method Handle(x: Effects, y: Effects, ghost m: SendPath.Mode)
      requires P.Extends(x, y) && Tidy(y) && InBox(box, plan.ops, x, true)
      requires Wired(sender, m, plan.sent, plan.controls) && m.open
      modifies box, sender
      ensures InBox(box, plan.ops + P.ReadOps(x, y), y, !P.Ends(y.terminal))
      ensures Wired(sender, Negotiated(m, P.Rest(x.accepted, y.accepted)).(open := !P.Ends(y.terminal)), plan.sent,
                    plan.controls + P.ReadControls(x, y))
    {
      hide InBox, Wired, P.ReadOps, P.Replies, P.FaultClose, P.Ends, P.AllCompressed, Terminal;
      Dispatch(x, y);
      var accepted, replies := y.accepted[|x.accepted|..], y.replies[|x.replies|..];
      assert accepted == P.Rest(x.accepted, y.accepted) && replies == P.Rest(x.replies, y.replies);
      assert (forall e :: e in accepted ==> e.Accepted?) && forall p :: p in replies ==> |p| <= 125;
      hide P.Rest;
      Negotiate(sender, accepted, m, plan.sent, plan.controls);
      Answer(replies, y.terminal, Negotiated(m, accepted));
    }

    /** Replies, and the Close frame of an error. */
    method Answer(replies: seq<bytes>, terminal: Option<Event>, ghost m: SendPath.Mode)
      requires Wired(sender, m, plan.sent, plan.controls) && m.open && forall p :: p in replies ==> |p| <= 125
      requires terminal.Some? ==> Terminal(terminal.value)
      modifies sender
      ensures Wired(sender, m.(open := !P.Ends(terminal)), plan.sent,
                    plan.controls + (P.Replies(replies) + P.FaultClose(terminal)))
    {
      hide Wired, P.Replies;
      var peerClose := terminal.Some? && terminal.value.Close?;
      Reply(sender, replies, peerClose, m, plan.sent, plan.controls);
      ConcatAssociative(plan.controls, P.Replies(replies), P.FaultClose(terminal));
      if peerClose {
        assert plan.controls + P.Replies(replies) + [] == plan.controls + P.Replies(replies);
      } else {
        ReplyFault(sender, terminal, m, plan.sent, plan.controls + P.Replies(replies));
      }
    }

    /** Bytes arrive; nothing is read after a terminal event or a local close. */
    method ReadChunk(chunk: bytes)
      requires Valid()
      modifies this, client, box, sender
      ensures Valid() && plan == P.Next(Setting(), old(plan), P.Read(chunk))
    {
      hide Follows, Tally, Wired, InBox, Run, Step1, Project, Join, WalkFrom, P.ReadOps, P.ReadControls, P.Fx, P.Rest;
      if !reading { return; }
      ghost var t := Setting();
      ClientAgrees(client);
      FxIsWhole(client, sender.compress);
      var x := client.fx;
      ReadBytes(client, path, chunk);
      FxIsWhole(client, sender.compress);
      EffectsTidy(Run(client.env, InitCore(client.offered), client.stream).events);
      var y := client.fx;
      Handle(x, y, P.ModeFor(t, plan));
      ReadMode(t, plan, chunk);
      plan := P.Next(t, plan, P.Read(chunk));
      reading := y.terminal.None?;
    }

    /** Queue operations of the application. */
    method Call(op: R.Op)
      requires Valid() && P.IsCall(op)
      modifies this`plan, box
      ensures Valid() && plan == old(plan).(ops := old(plan).ops + [op])
    {
      hide Follows, Wired, Hears, P.Fx, D.Sound, R.After, R.Arrivals, R.PongLog, R.Loses;
      CallAdds(box, plan.ops, op);
      Do(box, op, plan.ops);
      plan := plan.(ops := plan.ops + [op]);
    }

    method SendMessage(message: SendPath.Outgoing, mask: bytes)
      requires Valid() && SendPath.OpOk(sender.compress, SendPath.Message(message, mask))
      modifies this`plan, sender
      ensures Valid() && plan == P.Next(Setting(), old(plan), P.Send(message, mask))
    {
      hide InBox, Wired, Hears, P.Fx, SendPath.OpOk, SendPath.SentBy;
      ghost var m := P.ModeFor(Setting(), plan);
      ghost var next := P.Next(Setting(), plan, P.Send(message, mask));
      SendOp(sender, SendPath.Message(message, mask), m, plan.sent, plan.controls);
      assert AllInClear([]) == [] && plan.controls + [] == plan.controls;
      plan := next;
    }

    /** pause_writing, resume_writing and draining. */
    method Transport(op: SendPath.Op)
      requires Valid() && (op.Pause? || op.Resume? || op.DrainSome?)
      modifies sender
      ensures Valid()
    {
      hide InBox, Wired, Hears, P.Fx;
      SendQuiet(sender, op, P.ModeFor(Setting(), plan), plan.sent, plan.controls);
    }

    /** Local close. */
    method Shutdown()
      requires Valid()
      modifies this`plan, this`reading, box, sender
      ensures Valid() && plan == P.Next(Setting(), old(plan), P.Shut)
    {
      hide Follows, Wired, Hears, P.Fx, D.Sound, R.After, R.Arrivals, R.PongLog, R.Loses;
      ghost var m := P.ModeFor(Setting(), plan);
      ghost var next := P.Next(Setting(), plan, P.Shut);
      CallAdds(box, plan.ops, R.CloseConnection);
      SendOp(sender, SendPath.CloseLocally, m, plan.sent, plan.controls);
      assert AllInClear([]) == [] && AllInClear([SendPath.CLOSE_FRAME]) == [Clear(OP_CLOSE, false, [])];
      assert plan.sent + [] == plan.sent;
      Do(box, R.CloseConnection, plan.ops);
      reading := false;
      plan := next;
    }
  }

  lemma {:induction false} FxIsWhole(client: NativeClient, compress: bytes -> bytes)
    ensures P.Fx(P.Setting(client.env, client.offered, compress), client.stream) == Whole(client)
  {
    hide Run, Project;
  }

  /** Between scans any call or close is possible, and adds neither message nor Pong. */
  lemma {:induction false} CallAdds(box: Mailbox.State, ops: seq<R.Op>, op: R.Op)
    requires Follows(box, ops) && (P.IsCall(op) || op.CloseConnection?)
    ensures !R.Loses(box.View(), op) && (op.CancelFuture? || R.Enabled(box.View(), op))
    ensures R.Arrivals(ops + [op]) == R.Arrivals(ops) && R.PongLog(ops + [op]) == R.PongLog(ops)
  {
    hide D.Sound, R.After;
    IdleBox(box);
    OpAdds(ops, op);
    assert R.Arrivals(ops) + [] == R.Arrivals(ops) && R.PongLog(ops) + [] == R.PongLog(ops);
  }

  /** The mode a read leads to. */
  lemma {:induction false} ReadMode(t: P.Setting, p: P.State, chunk: bytes)
    requires P.Listening(t, p) && P.Extends(P.Fx(t, p.heard), P.Fx(t, p.heard + chunk))
    requires Tidy(P.Fx(t, p.heard + chunk))
    ensures var x, y := P.Fx(t, p.heard), P.Fx(t, p.heard + chunk);
            P.ModeFor(t, P.Next(t, p, P.Read(chunk))) ==
            Negotiated(P.ModeFor(t, p), P.Rest(x.accepted, y.accepted)).(open := !P.Ends(y.terminal))
  {
    hide P.Fx, P.ReadOps, P.ReadControls;
    var x, y := P.Fx(t, p.heard), P.Fx(t, p.heard + chunk);
    P.RestCompletes(x.accepted, y.accepted);
    AllCompressedConcat(x.accepted, P.Rest(x.accepted, y.accepted));
    hide P.Rest, P.AllCompressed;
  }

  lemma {:induction false} AllCompressedConcat(a: seq<Event>, b: seq<Event>)
    ensures P.AllCompressed(a + b) <==> P.AllCompressed(a) && P.AllCompressed(b)
  {
    assert forall e :: e in a + b <==> e in a || e in b;
  }

  // ---- whole runs ----

  ghost predicate StepOk(compress: bytes -> bytes, step: P.Step) {
    step.Send? ==> SendPath.OpOk(compress, SendPath.Message(step.message, step.mask))
  }

  method Perform(c: Connection, step: P.Step)
    requires c.Valid() && StepOk(c.sender.compress, step)
    modifies c, c.client, c.box, c.sender
    ensures c.Valid() && c.plan == P.Next(c.Setting(), old(c.plan), step)
  {
    hide Connection.Valid, P.Listening, P.ReadOps, P.ReadControls, P.ModeFor, P.Open, SendPath.SentBy, SendPath.OpOk;
    match step
    case Read(chunk) => c.ReadChunk(chunk);
    case Recv => c.Call(R.CallRecv);
    case Cancel(f) => c.Call(R.CancelFuture(f));
    case Probes(raising) => c.Call(R.ChangeProbes(raising));
    case Send(message, mask) => c.SendMessage(message, mask);
    case Pause => c.Transport(SendPath.Pause);
    case Resume => c.Transport(SendPath.Resume);
    case Drain => c.Transport(SendPath.DrainSome);
    case Shut => c.Shutdown();
  }

  /**
   End to end. Whatever reads, recv() and send() calls, cancellations, probe changes,
   pauses, drains and closes a fresh connection is put through, it does exactly what the
   plan computes from those steps: it reads those bytes, performs those queue operations,
   accepts those frames and writes those control frames. So what the recv() calls of
   the steps got, in call order, followed by the backlog, is the list of messages the
   bytes mean; the Pongs given to the Ping registry and the handshake result are theirs;
   the control frames are the replies they call for, then the Close of an error or of a
   local close; and once they, or a local close, end the connection, queues and send path
   are closed.
   */
  method Converse(client: NativeClient, box: Mailbox.State, sender: SendPath.Sender, path: Path, steps: seq<P.Step>)
    returns (c: Connection)
    requires Fresh(client, box, sender)
    requires forall step :: step in steps ==> StepOk(sender.compress, step)
    modifies client, box, sender
    ensures c.client == client && c.box == box && c.sender == sender && c.Valid()
    ensures var p := P.After(c.Setting(), steps);
            var fx, shut := P.Fx(c.Setting(), P.Inbound(steps)), P.Shut in steps;
            && c.plan == p && client.stream == p.heard && client.fx == fx
            && box.View() == R.After(p.ops)
            && P.Calls(p.ops) == P.CallsOf(steps) && P.Verdicts(p.ops) == P.VerdictsOf(fx)
            && Order.Collected(R.Answers(p.ops), box.futures) + box.backlog == fx.messages
            && R.PongLog(p.ops) == fx.acks
            && (shut || P.Ends(fx.terminal) <==> box.closed) && (box.closed <==> sender.closed)
    ensures SendPath.PeerSees(sender, P.SendsOf(c.Setting(), steps),
                              P.ControlsOf(P.Fx(c.Setting(), P.Inbound(steps)), P.Shut in steps))
  {
    hide *;
    c := new Connection(client, box, sender, path);
    PerformAll(c, steps);
    P.CallsAreSteps(c.Setting(), steps);
    P.ClosedForms(c.Setting(), steps);
    P.HeardIsInbound(c.Setting(), steps);
    P.SendsAre(c.Setting(), steps);
    Outcome(c);
    SenderValid(c);
    SendPath.PeerSeesSent(sender);
  }

  method PerformAll(c: Connection, steps: seq<P.Step>)
    requires c.Valid() && c.plan == P.START && forall step :: step in steps ==> StepOk(c.sender.compress, step)
    modifies c, c.client, c.box, c.sender
    ensures c.Valid() && c.plan == P.After(c.Setting(), steps)
  {
    hide Connection.Valid, StepOk, P.Next;
    for i := 0 to |steps|
      invariant c.Valid() && c.plan == P.After(c.Setting(), steps[..i])
    {
      assert steps[i] in steps;
      Perform(c, steps[i]);
      P.AfterNext(c.Setting(), steps, i);
    }
    assert steps[..|steps|] == steps;
  }

  // ---- a rejected handshake ----

  lemma {:induction false} IdleRun(ops: seq<R.Op>)
    requires forall op :: op in ops ==> P.Plain(op)
    ensures R.After(ops).acking == []
  {
    hide D.Sound, R.Next;
    if ops == [] {
      assert R.After(ops) == D.Init();
    } else {
      var n := |ops| - 1;
      IdleRun(ops[..n]);
      assert ops[n] in ops;
      R.AfterSnoc(ops);
      StaysIdle(R.After(ops[..n]), ops[n]);
    }
  }

  /** The handshake Future of a connection the server rejected. */
  lemma {:induction false} RejectedFuture(t: P.Setting, steps: seq<P.Step>)
    requires P.Verdicts(P.After(t, steps).ops) == [R.HandshakeRejected]
    ensures var futures := R.After(P.After(t, steps).ops).futures;
            |futures| > 0 && (futures[0].Failed? || (futures[0].Cancelled? && P.Cancel(0) in steps))
  {
    var ops := P.After(t, steps).ops;
    P.PlainPlan(t, steps);
    P.CallsAreSteps(t, steps);
    hide P.After, R.After, P.Verdicts, P.Calls, P.CallsOf;
    P.VerdictMembers(ops, R.HandshakeRejected);
    P.VerdictMembers(ops, R.HandshakeAccepted);
    var k :| 0 <= k < |ops| && ops[k] == R.HandshakeRejected;
    assert forall op :: op in ops[..k] ==> op in ops;
    IdleRun(ops[..k]);
    Fates.RejectionFails(ops, k);
    if R.CancelFuture(0) in ops { P.CancelIsStep(ops, steps, 0); }
  }

  /** End to end for a server that rejects: nothing is delivered, answered or sent, whatever
      bytes follow; the handshake Future fails, unless it was cancelled first. */
  method ConverseRejected(client: NativeClient, box: Mailbox.State, sender: SendPath.Sender, path: Path,
                          steps: seq<P.Step>, header: bytes, rest: bytes)
    returns (c: Connection)
    requires Fresh(client, box, sender)
    requires forall step :: step in steps ==> StepOk(sender.compress, step)
    requires FindHeaderEnd(header) == Some(|header|) && client.env.judge(header).Reject?
    requires P.Inbound(steps) == header + rest
    modifies client, box, sender
    ensures client.fx == Effects([], [], [], [], Some(Rejected(client.env.judge(header).status)))
    ensures box.backlog == [] && Order.Collected(R.Answers(c.plan.ops), box.futures) == []
    ensures |box.futures| > 0
    ensures box.futures[0].Failed? || (box.futures[0].Cancelled? && P.Cancel(0) in steps)
    ensures SendPath.PeerSees(sender, [], if P.Shut in steps then [Clear(8, false, [])] else [])
  {
    hide *;
    c := Converse(client, box, sender, path, steps);
    ghost var t := P.Setting(client.env, client.offered, sender.compress);
    SettingIs(c);
    P.RejectedEffects(t, header, rest);
    RejectedForms(client.env.judge(header).status, P.Shut in steps);
    P.NothingSent(t, steps);
    RejectedFuture(t, steps);
    BoxShows(c);
  }

  lemma {:induction false} SettingIs(c: Connection)
    ensures c.Setting() == P.Setting(c.client.env, c.client.offered, c.sender.compress)
  {
  }

  lemma {:induction false} RejectedForms(status: Option<nat>, shut: bool)
    ensures var fx := Effects([], [], [], [], Some(Rejected(status)));
            && P.VerdictsOf(fx) == [R.HandshakeRejected]
            && P.ControlsOf(fx, shut) == if shut then [Clear(8, false, [])] else []
  {
  }

  lemma {:induction false} BoxShows(c: Connection)
    requires c.Valid()
    ensures c.box.Valid() && c.box.View().futures == c.box.futures
  {
    hide D.Sound, Hears, Wired, P.Fx, R.After, Tally, R.NeverLoses;
  }

  lemma {:induction false} SenderValid(c: Connection)
    requires c.Valid()
    ensures c.sender.Valid()
  {
    hide Hears, InBox, P.Fx, SendPath.ControlsOf, AllInClear, EncodeAll, SendPath.DataOf, Sendable;
  }

  lemma {:induction false} Outcome(c: Connection)
    requires c.Valid()
    ensures var p := c.plan;
            var fx := P.Fx(c.Setting(), p.heard);
            && c.client.stream == p.heard && c.client.fx == fx && c.box.View() == R.After(p.ops)
            && Order.Collected(R.Answers(p.ops), c.box.futures) + c.box.backlog == fx.messages
            && R.PongLog(p.ops) == fx.acks
            && c.sender.sent == p.sent && AllInClear(SendPath.ControlsOf(c.sender.wire)) == p.controls
            && (p.shut || P.Ends(fx.terminal) <==> c.box.closed) && (c.box.closed <==> c.sender.closed)
  {
    ClientAgrees(c.client);
    FxIsWhole(c.client, c.sender.compress);
    hide D.Sound, R.After, R.Answers, R.Survivors, Order.Collected, Whole, R.NeverLoses, R.Arrivals, R.PongLog, P.Fx;
    hide SendPath.ControlsOf, AllInClear, EncodeAll, SendPath.DataOf, SendPath.Encodings, Sendable, P.Ends;
    hide Run, Step1, Project, Join, WalkFrom;
    R.ReceiveConservation(c.plan.ops);
  }
}
