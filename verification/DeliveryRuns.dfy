/** Every run of the delivery state machine, in any order of calls, arrivals and cancellations. */
module DeliveryRuns {
  import opened Common
  import opened DeliveryOrder
  import opened Delivery

  /** `Arrive` is a message, with whether the second look at its receiver raises.
      `HoldPong` is a Pong met by a scan, which acknowledges all of them when it is through. */
  datatype Op =
    | Arrive(message: bytes, raises: bool)
    | CallRecv
    | CallPing(payload: bytes, writeOk: bool)
    | ArrivePong(payload: bytes)
    | HoldPong(payload: bytes)
    | Acknowledge
    | CancelFuture(f: Fut)
    | ChangeProbes(raising: set<Fut>)
    | RunCleanup(f: Fut, payload: bytes)
    | HandshakeAccepted
    | HandshakeRejected
    | TlsFailed
    | CloseConnection

  /** A Future must exist to be cancelled; a done-callback runs only for a settled probe;
      calls and callbacks do not run in the middle of a scan. */
  ghost predicate Enabled(s: Box, op: Op)
    requires Sound(s)
  {
    match op
    case Arrive(_, _) => true
    case HoldPong(_) => true
    case Acknowledge => true
    case ChangeProbes(_) => true
    case CancelFuture(f) => f < |s.futures|
    case RunCleanup(f, p) =>
      s.acking == [] && f < |s.futures| && s.kind[f].Ping? && s.kind[f].payload == p && !s.futures[f].Pending?
    case _ => s.acking == []
  }

  ghost function Next(s: Box, op: Op): Box
    requires Sound(s)
  {
    if !Enabled(s, op) then s
    else match op
      case Arrive(m, raises) => Deliver(s, m, raises)
      case CallRecv => Recv(s).0
      case CallPing(p, writeOk) => PingWaiter(s, p, writeOk).0
      case ArrivePong(p) => PongArrives(s, p)
      case HoldPong(p) => Delivery.HoldPong(s, p)
      case Acknowledge => Delivery.Acknowledge(s)
      case CancelFuture(f) => Settle(s, f, Cancelled)
      case ChangeProbes(raising) => s.(raising := raising)
      case RunCleanup(f, _) => Cleanup(s, f)
      case HandshakeAccepted => AcceptHandshake(s)
      case HandshakeRejected => RejectHandshake(s)
      case TlsFailed => FailTls(s)
      case CloseConnection => Teardown(s)
  }

  lemma {:induction false} NextOk(s: Box, op: Op)
    requires Sound(s)
    ensures Sound(Next(s, op))
  {
    hide Sound, Deliver, Recv, PingWaiter, PongArrives, Settle, Cleanup, LetGo, RejectHandshake, Teardown;
    hide Delivery.HoldPong, Delivery.Acknowledge;
    if Enabled(s, op) {
      match op
      case Arrive(m, raises) => DeliverOk(s, m, raises);
      case CallRecv => RecvOk(s);
      case CallPing(p, writeOk) => PingWaiterOk(s, p, writeOk);
      case ArrivePong(p) => PongArrivesOk(s, p);
      case HoldPong(p) => HoldPongOk(s, p);
      case Acknowledge => AcknowledgeOk(s);
      case CancelFuture(f) => SettleOk(s, f, Cancelled);
      case ChangeProbes(raising) => ProbesOk(s, raising);
      case RunCleanup(f, _) => CleanupOk(s, f);
      case HandshakeAccepted => LetGoOk(s, Result(None));
      case HandshakeRejected => RejectHandshakeOk(s);
      case TlsFailed => LetGoOk(s, Failed);
      case CloseConnection => TeardownOk(s);
    }
  }

  /** State after a run from a fresh connection. */
  ghost function After(ops: seq<Op>): (s: Box)
    ensures Sound(s)
  {
    if ops == [] then InitOk(); Init()
    else
      var s := After(ops[..|ops| - 1]);
      NextOk(s, ops[|ops| - 1]);
      Next(s, ops[|ops| - 1])
  }

  lemma {:induction false} AfterSnoc(ops: seq<Op>)
    requires ops != []
    ensures After(ops) == Next(After(ops[..|ops| - 1]), ops[|ops| - 1])
  {
    hide Next;
  }

  lemma {:induction false} AfterAppend(ops: seq<Op>, op: Op)
    ensures After(ops + [op]) == Next(After(ops), op)
  {
    hide Next;
    assert (ops + [op])[..|ops|] == ops;
  }

  // ---- guards of the branches that let something go ----

  /** A message is lost: its receiver is live at the first look, and the second raises. */
  ghost predicate Loses(s: Box, op: Op)
    requires Sound(s)
  {
    op.Arrive? && op.raises && Below(s.pending, |s.futures|) && FirstLive(s.futures, s.raising, s.pending).Some?
  }

  /** The probe of the handshake Future raises while acceptance or a TLS failure takes it. */
  ghost predicate LetsGo(s: Box, op: Op)
    requires Sound(s)
  {
    && (op.HandshakeAccepted? || op.TlsFailed?) && s.acking == []
    && s.handshake.Some? && s.handshake.value in s.raising && s.futures[s.handshake.value].Pending?
  }

  /** The Futures a step lets go unsettled. */
  ghost function Stranding(s: Box, op: Op): set<Fut>
    requires Sound(s)
  {
    if Loses(s, op) then
      AckingBelow(s);
      {FirstLive(s.futures, s.raising, s.pending).value} + Due(s)
    else if LetsGo(s, op) then {s.handshake.value}
    else {}
  }

  // ---- what one step adds to the history ----

  ghost function Arrived(op: Op): seq<bytes> { if op.Arrive? then [op.message] else [] }

  ghost function Survived(s: Box, op: Op): seq<bytes>
    requires Sound(s)
  {
    if Loses(s, op) then [] else Arrived(op)
  }

  ghost function Answered(s: Box, op: Op): seq<Received>
    requires Sound(s)
  {
    if op.CallRecv? && s.acking == [] then [Recv(s).1] else []
  }

  ghost function Ponged(s: Box, op: Op): seq<bytes>
    requires Sound(s)
  {
    if op.HoldPong? || (op.ArrivePong? && s.acking == []) then [op.payload] else []
  }

  /** Arrivals and recv() calls aside, no step touches messages, calls or the sweep. */
  lemma {:induction false} NextOther(s: Box, op: Op)
    requires Sound(s) && !op.Arrive? && !op.CallRecv?
    ensures var t := Next(s, op);
            && t.arrived == s.arrived && t.handed == s.handed && t.answers == s.answers && t.backlog == s.backlog
            && t.parks == s.parks && t.probes == s.probes && t.peak == s.peak
  {
    hide Sound, Deliver, Recv, PingWaiter, IsRegistered, SettleOne;
    if op.CallPing? { PingWaiterFrame(s, op.payload, op.writeOk); }
  }

  lemma {:induction false} NextArrive(s: Box, op: Op)
    requires Sound(s) && op.Arrive?
    ensures Next(s, op) == Deliver(s, op.message, op.raises)
  {
    hide Sound, Deliver;
  }

  lemma {:induction false} NextRecv(s: Box)
    requires Sound(s)
    ensures Next(s, CallRecv) == if s.acking == [] then Recv(s).0 else s
  {
    hide Sound, Recv;
  }

  lemma {:induction false} NextArrived(s: Box, op: Op)
    requires Sound(s)
    ensures Next(s, op).arrived == s.arrived + Survived(s, op)
    ensures s.handed <= Next(s, op).handed
  {
    hide Sound, Deliver, Recv, FirstLive, Next;
    if op.Arrive? {
      DeliverOk(s, op.message, op.raises);
      DeliverReaches(s, op.message, op.raises);
      NextArrive(s, op);
    } else if op.CallRecv? {
      RecvOk(s);
      NextRecv(s);
    } else {
      NextOther(s, op);
    }
  }

  lemma {:induction false} NextAnswers(s: Box, op: Op)
    requires Sound(s)
    ensures Next(s, op).answers == s.answers + Answered(s, op)
  {
    hide Sound, Deliver, Recv, Next;
    if op.Arrive? {
      DeliverOk(s, op.message, op.raises);
      NextArrive(s, op);
    } else if op.CallRecv? {
      RecvOk(s);
      NextRecv(s);
    } else {
      NextOther(s, op);
    }
  }

  lemma {:induction false} NextPonged(s: Box, op: Op)
    requires Sound(s)
    ensures Next(s, op).pongs == s.pongs + Ponged(s, op)
  {
    hide Sound, Deliver, Recv;
    if op.Arrive? { DeliverOk(s, op.message, op.raises); }
    if op.CallRecv? { RecvOk(s); }
  }

  /** Once closed, always closed; no Future is created or registered any more. */
  lemma {:induction false} NextClosed(s: Box, op: Op)
    requires Sound(s) && s.closed
    ensures Next(s, op).closed && Emptied(Next(s, op)) && |Next(s, op).futures| == |s.futures|
  {
    NextOk(s, op);
    assert Emptied(s);
    hide Sound, Deliver, FirstLive, Recv, Teardown;
    assert Emptied(Next(s, op)) by { SoundClosed(Next(s, op)); NextStaysClosed(s, op); }
    hide Emptied;
    if op.Arrive? {
      DeliverOk(s, op.message, op.raises);
      DeliverReaches(s, op.message, op.raises);
    }
    if op.CallRecv? { RecvOk(s); }
    NextStaysClosed(s, op);
  }

  lemma {:induction false} SoundClosed(s: Box)
    requires Sound(s)
    ensures s.closed ==> Emptied(s)
  {
  }

  lemma {:induction false} NextStaysClosed(s: Box, op: Op)
    requires Sound(s) && s.closed
    ensures Next(s, op).closed && |Next(s, op).futures| == |s.futures|
  {
    SoundClosed(s);
    hide Sound, Deliver, FirstLive, Recv;
    if op.Arrive? {
      DeliverOk(s, op.message, op.raises);
      DeliverReaches(s, op.message, op.raises);
    }
    if op.CallRecv? { RecvOk(s); }
  }

  /** A Future is let go unsettled exactly in the two branches above. */
  lemma {:induction false} NextStranded(s: Box, op: Op)
    requires Sound(s)
    ensures Next(s, op).stranded == s.stranded + Stranding(s, op)
  {
    hide Sound, Deliver, Recv, FirstLive;
    if op.Arrive? {
      hide Next;
      DeliverReaches(s, op.message, op.raises);
      AckingBelow(s);
      NextArrive(s, op);
    } else if op.CallRecv? {
      hide Next;
      RecvOk(s);
      NextRecv(s);
    } else {
      NextStrandedOther(s, op);
    }
  }

  lemma {:induction false} NextStrandedOther(s: Box, op: Op)
    requires Sound(s) && !op.Arrive? && !op.CallRecv?
    ensures Next(s, op).stranded == s.stranded + if LetsGo(s, op) then {s.handshake.value} else {}
  {
    hide Sound, Deliver, Recv, PingWaiter, IsRegistered, SettleOne;
    if op.CallPing? { PingWaiterFrame(s, op.payload, op.writeOk); }
  }

  lemma {:induction false} NextPeak(s: Box, op: Op)
    requires Sound(s)
    ensures var t := Next(s, op);
            Below(t.pending, |t.futures|) && t.peak == Max(s.peak, Waiting(t.futures, t.pending))
  {
    NextOk(s, op);
    SoundSweep(s);
    SoundSweep(Next(s, op));
    hide Sound, Waiting, Next, Deliver, Recv, Join, Sweep;
    if op.CallRecv? {
      NextRecv(s);
      RecvPeak(s);
    } else if op.Arrive? {
      DeliverOk(s, op.message, op.raises);
      NextArrive(s, op);
    } else {
      NextOther(s, op);
    }
  }

  lemma {:induction false} SoundSweep(s: Box)
    requires Sound(s)
    ensures Below(s.pending, |s.futures|) && Waiting(s.futures, s.pending) <= s.peak
  {
    assert SweepOk(s);
  }

  lemma {:induction false} RecvPeak(s: Box)
    requires Sound(s)
    ensures var t := Recv(s).0;
            Below(t.pending, |t.futures|) && t.peak == Max(s.peak, Waiting(t.futures, t.pending))
  {
    RecvOk(s);
    SoundSweep(s);
    SoundSweep(Recv(s).0);
    if s.backlog == [] && !s.closed && s.bound {
      if |s.pending| >= s.sweepAt {
        SweepKeepsOk(s);
        SoundSweep(Sweep(s));
        JoinPeak(Sweep(s));
      } else {
        JoinPeak(s);
      }
    }
    hide Sound, Waiting, Kept, Raised;
  }

  /** Probes and parks of one step: only a recv() that parks counts, and it probes the
      whole queue exactly if the queue has reached the threshold. */
  ghost function ParksBy(s: Box, op: Op): nat {
    if op.CallRecv? && s.acking == [] && s.backlog == [] && !s.closed && s.bound then 1 else 0
  }

  ghost function ProbesBy(s: Box, op: Op): nat {
    if ParksBy(s, op) == 1 && |s.pending| >= s.sweepAt then |s.pending| else 0
  }

  lemma {:induction false} NextCost(s: Box, op: Op)
    requires Sound(s)
    ensures var t := Next(s, op); t.parks == s.parks + ParksBy(s, op) && t.probes == s.probes + ProbesBy(s, op)
  {
    hide Sound, Next, Deliver, Kept, Raised, Waiting;
    if op.CallRecv? {
      NextRecv(s);
      if ParksBy(s, op) == 1 { RecvParks(s); }
    } else if op.Arrive? {
      DeliverOk(s, op.message, op.raises);
      NextArrive(s, op);
    } else {
      NextOther(s, op);
    }
  }

  // ---- whole runs ----

  ghost function Arrivals(ops: seq<Op>): seq<bytes> {
    if ops == [] then [] else Arrivals(ops[..|ops| - 1]) + Arrived(ops[|ops| - 1])
  }

  /** The messages of the run that were not lost. */
  ghost function Survivors(ops: seq<Op>): seq<bytes> {
    if ops == [] then [] else Survivors(ops[..|ops| - 1]) + Survived(After(ops[..|ops| - 1]), ops[|ops| - 1])
  }

  /** The answers of all recv() calls, in call order. */
  ghost function Answers(ops: seq<Op>): seq<Received> {
    if ops == [] then [] else Answers(ops[..|ops| - 1]) + Answered(After(ops[..|ops| - 1]), ops[|ops| - 1])
  }

  ghost function PongLog(ops: seq<Op>): seq<bytes> {
    if ops == [] then [] else PongLog(ops[..|ops| - 1]) + Ponged(After(ops[..|ops| - 1]), ops[|ops| - 1])
  }

  ghost function Parks(ops: seq<Op>): nat {
    if ops == [] then 0 else Parks(ops[..|ops| - 1]) + ParksBy(After(ops[..|ops| - 1]), ops[|ops| - 1])
  }

  ghost function SweepProbes(ops: seq<Op>): nat {
    if ops == [] then 0 else SweepProbes(ops[..|ops| - 1]) + ProbesBy(After(ops[..|ops| - 1]), ops[|ops| - 1])
  }

  /** Largest number of receivers waiting at any moment of the run. */
  ghost function PeakWaiting(ops: seq<Op>): nat {
    var s := After(ops);
    var now := Waiting(s.futures, s.pending);
    if ops == [] then now else Max(PeakWaiting(ops[..|ops| - 1]), now)
  }

  lemma {:induction false} Logs(ops: seq<Op>)
    ensures var s := After(ops);
            && s.arrived == Survivors(ops) && s.answers == Answers(ops) && s.pongs == PongLog(ops)
            && s.parks == Parks(ops) && s.probes == SweepProbes(ops)
  {
    hide Next, Sound, Survived, Answered, Ponged, ParksBy, ProbesBy;
    if ops != [] {
      var before, op := ops[..|ops| - 1], ops[|ops| - 1];
      Logs(before);
      NextArrived(After(before), op);
      NextAnswers(After(before), op);
      NextPonged(After(before), op);
      NextCost(After(before), op);
    }
  }

  ghost predicate NeverLoses(ops: seq<Op>) {
    forall k :: 0 <= k < |ops| ==> !Loses(After(ops[..k]), ops[k])
  }

  lemma {:induction false} NeverLosesSnoc(ops: seq<Op>)
    requires ops != []
    ensures var n := |ops| - 1; NeverLoses(ops) <==> NeverLoses(ops[..n]) && !Loses(After(ops[..n]), ops[n])
  {
    hide After, Loses;
    var n := |ops| - 1;
    assert forall k :: 0 <= k < n ==> ops[..n][..k] == ops[..k] && ops[..n][k] == ops[k];
    if NeverLoses(ops[..n]) && !Loses(After(ops[..n]), ops[n]) {
      forall k | 0 <= k < |ops| ensures !Loses(After(ops[..k]), ops[k]) {
        if k < n { assert !Loses(After(ops[..n][..k]), ops[..n][k]); }
      }
    }
    if NeverLoses(ops) {
      forall k | 0 <= k < n ensures !Loses(After(ops[..n][..k]), ops[..n][k]) {
        assert !Loses(After(ops[..k]), ops[k]);
      }
      assert !Loses(After(ops[..n]), ops[n]);
    }
  }

  lemma {:induction false} SurvivorsAll(ops: seq<Op>)
    ensures |Survivors(ops)| <= |Arrivals(ops)|
    ensures |Survivors(ops)| == |Arrivals(ops)| <==> NeverLoses(ops)
    ensures NeverLoses(ops) ==> Survivors(ops) == Arrivals(ops)
  {
    if ops != [] {
      hide After, Loses, NeverLoses;
      SurvivorsAll(ops[..|ops| - 1]);
      NeverLosesSnoc(ops);
      LosesMessage(After(ops[..|ops| - 1]), ops[|ops| - 1]);
    } else {
      hide After, Loses;
    }
  }

  lemma {:induction false} LosesMessage(s: Box, op: Op)
    requires Sound(s)
    ensures Loses(s, op) ==> |Arrived(op)| == 1
  {
    hide Sound;
  }

  /**
   Conservation. What the recv() calls of a run got, as direct answers or as results of
   their Futures, taken in call order and followed by the backlog, is what survived of the
   messages that arrived; it is everything that arrived exactly if no receiver's second
   look raised. Nobody is parked while messages wait.
   */
  lemma {:induction false} ReceiveConservation(ops: seq<Op>)
    ensures var s := After(ops);
            && Collected(Answers(ops), s.futures) + s.backlog == Survivors(ops)
            && (Collected(Answers(ops), s.futures) + s.backlog == Arrivals(ops) <==> NeverLoses(ops))
            && (s.backlog != [] ==> s.pending == [])
  {
    var s := After(ops);
    Logs(ops);
    assert Fair(s.handed, s.kind, s.pending, |s.answers|) && Told(s.futures, s.kind, s.handed, s.answers);
    assert Messages(s.handed) + s.backlog == s.arrived && (s.backlog != [] ==> s.pending == []);
    hide Sound, After, Answers, Survivors, Arrivals, NeverLoses, Fair, Told, Messages, Collected;
    CollectedIsHanded(s.futures, s.kind, s.handed, s.pending, s.answers);
    SurvivorsAll(ops);
  }

  /** Fairness: of two recv() calls that got messages, the earlier call got the earlier one. */
  lemma {:induction false} ReceiveFairness(ops: seq<Op>, i: nat, j: nat)
    requires i < |After(ops).handed| && j < |After(ops).handed|
    ensures i < j <==> After(ops).handed[i].call < After(ops).handed[j].call
  {
    var s := After(ops);
    assert Fair(s.handed, s.kind, s.pending, |s.answers|);
    EarlierCallEarlierMessage(s.handed, s.kind, s.pending, |s.answers|, i, j);
  }

  /** `k` further recv() calls. */
  ghost function Calls(k: nat): seq<Op> { seq(k, i => CallRecv) }

  ghost function Served(messages: seq<bytes>): seq<Received> {
    seq(|messages|, i requires 0 <= i < |messages| => Ready(messages[i]))
  }

  lemma {:induction false} ServedSnoc(b: seq<bytes>, k: nat)
    requires k < |b|
    ensures b[k..] != [] && b[k..][0] == b[k] && b[k..][1..] == b[k + 1..]
    ensures Served(b[..k + 1]) == Served(b[..k]) + [Ready(b[k])]
  {
  }

  lemma {:induction false} CallsSnoc(ops: seq<Op>, k: nat)
    ensures ops + Calls(k + 1) == (ops + Calls(k)) + [CallRecv]
  {
    assert Calls(k + 1) == Calls(k) + [CallRecv];
  }

  lemma {:induction false} AnswersAppend(ops: seq<Op>, op: Op)
    ensures Answers(ops + [op]) == Answers(ops) + Answered(After(ops), op)
  {
    hide Answered;
    assert (ops + [op])[..|ops|] == ops;
  }

  /** A recv() call on a closed connection. */
  lemma {:induction false} ClosedRecv(ops: seq<Op>)
    requires After(ops).closed
    ensures var s, t := After(ops), After(ops + [CallRecv]);
            && t.closed && t.futures == s.futures
            && if s.backlog != [] then
                 Answers(ops + [CallRecv]) == Answers(ops) + [Ready(s.backlog[0])] && t.backlog == s.backlog[1..]
               else
                 Answers(ops + [CallRecv]) == Answers(ops) + [ConnectionClosed] && t.backlog == []
  {
    var s := After(ops);
    SoundClosed(s);
    hide Sound, After, Recv, Answers, Next;
    RecvOk(s);
    AfterAppend(ops, CallRecv);
    NextRecv(s);
    AnswersAppend(ops, CallRecv);
  }

  lemma {:induction false} ServedSoFar(ops: seq<Op>, k: nat)
    requires After(ops).closed && k <= |After(ops).backlog|
    ensures var s, t := After(ops), After(ops + Calls(k));
            && t.closed && t.futures == s.futures && t.backlog == s.backlog[k..]
            && Answers(ops + Calls(k)) == Answers(ops) + Served(s.backlog[..k])
    decreases k
  {
    var s := After(ops);
    var b := s.backlog;
    hide After, Answers, Sound;
    if k == 0 {
      assert ops + Calls(0) == ops && b[0..] == b;
      assert Served(b[..0]) == [] && Answers(ops) + [] == Answers(ops);
    } else {
      ServedSoFar(ops, k - 1);
      CallsSnoc(ops, k - 1);
      ClosedRecv(ops + Calls(k - 1));
      ServedSnoc(b, k - 1);
      hide Calls, Served;
      ConcatAssociative(Answers(ops), Served(b[..k - 1]), [Ready(b[k - 1])]);
    }
  }

  /** The backlog outlives the connection: after close, as many recv() calls as there are
      messages get exactly those, in order; then all that survived has been collected, and
      the next call is told that the connection is closed. */
  lemma {:induction false} BacklogServedAfterClose(ops: seq<Op>)
    requires After(ops).closed
    ensures var s := After(ops);
            var drained := ops + Calls(|s.backlog|);
            && Answers(drained) == Answers(ops) + Served(s.backlog)
            && Collected(Answers(drained), After(drained).futures) == Survivors(ops)
            && Answers(drained + [CallRecv]) == Answers(drained) + [ConnectionClosed]
  {
    hide After, Answers, Sound, Calls, Served, Survivors, Collected;
    var b := After(ops).backlog;
    var n := |b|;
    var drained := ops + Calls(n);
    ServedSoFar(ops, n);
    assert b[n..] == [] && b[..n] == b;
    ClosedRecv(drained);
    AllCollected(drained);
    SurvivorsOfCalls(ops, n);
  }

  /** Without a backlog, the calls have got everything. */
  lemma {:induction false} AllCollected(ops: seq<Op>)
    requires After(ops).backlog == []
    ensures Collected(Answers(ops), After(ops).futures) == Survivors(ops)
  {
    hide After, Answers, Sound, Survivors, Collected, Arrivals, NeverLoses;
    ReceiveConservation(ops);
    var collected := Collected(Answers(ops), After(ops).futures);
    assert collected + [] == collected;
  }

  lemma {:induction false} NothingSurvives(s: Box)
    requires Sound(s)
    ensures Survived(s, CallRecv) == []
  {
    hide Sound;
  }

  lemma {:induction false} SurvivorsSnoc(ops: seq<Op>, op: Op)
    ensures Survivors(ops + [op]) == Survivors(ops) + Survived(After(ops), op)
    ensures Arrivals(ops + [op]) == Arrivals(ops) + Arrived(op)
  {
    hide After, Survived, Arrived, Sound;
    assert (ops + [op])[..|ops|] == ops;
  }

  lemma {:induction false} SurvivorsOfCalls(ops: seq<Op>, k: nat)
    ensures Survivors(ops + Calls(k)) == Survivors(ops)
    decreases k
  {
    hide After, Survivors, Sound, Survived;
    if k == 0 {
      assert ops + Calls(0) == ops;
    } else {
      var before := ops + Calls(k - 1);
      CallsSnoc(ops, k - 1);
      hide Calls;
      SurvivorsOfCalls(ops, k - 1);
      SurvivorsSnoc(before, CallRecv);
      NothingSurvives(After(before));
    }
  }

  lemma {:induction false} PeakIsExact(ops: seq<Op>)
    ensures After(ops).peak == PeakWaiting(ops)
  {
    hide Next, Waiting;
    if ops == [] {
      assert Init().peak == 0 && Waiting(Init().futures, []) == 0 by { EmptyWaiting(); }
    } else {
      PeakIsExact(ops[..|ops| - 1]);
      NextPeak(After(ops[..|ops| - 1]), ops[|ops| - 1]);
    }
  }

  lemma {:induction false} EmptyWaiting()
    ensures Waiting([Pending], []) == 0
  {
  }

  /** Retention and cost of the sweep: the queue is bounded by the threshold, the
      threshold by twice the peak, and all sweep probes by twice the parks. */
  lemma {:induction false} SweepBounds(ops: seq<Op>)
    ensures var s := After(ops);
            && |s.pending| <= s.sweepAt <= Max(RECV_SWEEP_MIN, 2 * PeakWaiting(ops))
            && SweepProbes(ops) <= 2 * Parks(ops)
  {
    PeakIsExact(ops);
    Logs(ops);
    assert SweepOk(After(ops));
    hide PeakWaiting, Waiting, Parks, SweepProbes, Survivors, Answers, PongLog;
  }
}
