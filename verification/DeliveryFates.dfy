/** What becomes of every Future of a run: Ping correlation, lost messages and teardown. */
module DeliveryFates {
  import opened Common
  import opened DeliveryOrder
  import opened Delivery
  import opened DeliveryRuns

  // ---- Ping correlation ----

  /** Kinds are fixed at creation, and a probe is created only by ping_waiter(). */
  lemma {:induction false} NextKinds(s: Box, op: Op)
    requires Sound(s)
    ensures var t := Next(s, op);
            && s.kind <= t.kind
            && (forall f :: |s.kind| <= f < |t.kind| && t.kind[f].Ping? ==>
                  f == |s.kind| && op.CallPing? && t.kind[f] == Ping(op.payload, |s.pongs|))
  {
    hide Sound, Deliver, Recv, IsRegistered;
    if op.Arrive? { DeliverOk(s, op.message, op.raises); }
    if op.CallRecv? { RecvOk(s); }
  }

  /** Probe `f` was created by the ping_waiter() call at position `k`. */
  ghost predicate CreatedAt(ops: seq<Op>, k: nat, f: Fut, payload: bytes, since: nat) {
    && k < |ops| && ops[k].CallPing? && ops[k].payload == payload
    && f == |After(ops[..k]).kind| && since == |PongLog(ops[..k])|
  }

  lemma {:induction false} ProbeCreated(ops: seq<Op>, f: Fut) returns (k: nat)
    requires f < |After(ops).kind| && After(ops).kind[f].Ping?
    ensures CreatedAt(ops, k, f, After(ops).kind[f].payload, After(ops).kind[f].since)
  {
    hide Next, Sound;
    if ops == [] { assert false; }
    var n := |ops| - 1;
    var s := After(ops[..n]);
    NextKinds(s, ops[n]);
    if f < |s.kind| {
      k := ProbeCreated(ops[..n], f);
      assert ops[..n][..k] == ops[..k];
    } else {
      k := n;
      Logs(ops[..n]);
    }
  }

  /** Operation `op` brings a Pong with this payload. */
  ghost predicate BringsPong(op: Op, payload: bytes) { op == ArrivePong(payload) || op == HoldPong(payload) }

  lemma {:induction false} PongedOne(s: Box, op: Op)
    requires Sound(s)
    ensures |Ponged(s, op)| <= 1 && (Ponged(s, op) != [] ==> BringsPong(op, Ponged(s, op)[0]))
  {
    hide Sound;
  }

  /** The `i`-th Pong of a run arrived at position `m`. */
  lemma {:induction false} PongPosition(ops: seq<Op>, i: nat) returns (m: nat)
    requires i < |PongLog(ops)|
    ensures m < |ops| && BringsPong(ops[m], PongLog(ops)[i])
    ensures |PongLog(ops[..m])| == i && |PongLog(ops[..m + 1])| == i + 1
  {
    hide After, Ponged, BringsPong, Sound;
    var n := |ops| - 1;
    PongedOne(After(ops[..n]), ops[n]);
    if i < |PongLog(ops[..n])| {
      m := PongPosition(ops[..n], i);
      assert ops[..n][..m] == ops[..m] && ops[..n][..m + 1] == ops[..m + 1];
    } else {
      m := n;
      assert ops[..n + 1] == ops;
    }
  }

  lemma {:induction false} PongLogGrows(ops: seq<Op>, m: nat)
    requires m <= |ops|
    ensures |PongLog(ops[..m])| <= |PongLog(ops)|
  {
    hide After, Ponged, Sound;
    if m < |ops| {
      var n := |ops| - 1;
      PongLogGrows(ops[..n], m);
      assert ops[..n][..m] == ops[..m];
    } else {
      assert ops[..m] == ops;
    }
  }

  ghost predicate Succeeded(s: Box, f: Fut) {
    f < |s.futures| == |s.kind| && s.kind[f].Ping? && s.futures[f].Result?
  }

  /** Correlation: a probe that succeeded was created by a ping_waiter() call, and a
      Pong with exactly its payload arrived later. */
  lemma {:induction false} PingCorrelation(ops: seq<Op>, s: Box, f: Fut) returns (k: nat, m: nat)
    requires s == After(ops) && Succeeded(s, f)
    ensures k < m < |ops|
    ensures CreatedAt(ops, k, f, s.kind[f].payload, s.kind[f].since)
    ensures BringsPong(ops[m], s.kind[f].payload)
    ensures f in s.answer && |PongLog(ops[..m])| == s.answer[f]
  {
    AnswerOf(s, f);
    hide Sound, After, Ponged, PongLog, BringsPong, Survivors, Answers, Parks, SweepProbes, CreatedAt;
    Logs(ops);
    k := ProbeCreated(ops, f);
    m := PongPosition(ops, s.answer[f]);
    PongAfterCall(ops, k, m, f, s.kind[f].payload, s.kind[f].since, s.answer[f]);
  }

  lemma {:induction false} PongAfterCall(ops: seq<Op>, k: nat, m: nat, f: Fut, payload: bytes, since: nat, i: nat)
    requires CreatedAt(ops, k, f, payload, since) && m < |ops| && BringsPong(ops[m], payload)
    requires |PongLog(ops[..m])| == i && |PongLog(ops[..m + 1])| == i + 1 && since <= i
    ensures k < m
  {
    hide After, Ponged, PongLog, Sound;
    if m < k {
      assert ops[..k][..m + 1] == ops[..m + 1];
      PongLogGrows(ops[..k], m + 1);
    }
  }

  lemma {:induction false} AnswerOf(s: Box, f: Fut)
    requires Sound(s) && f < |s.futures| && s.kind[f].Ping? && s.futures[f].Result?
    ensures |s.kind| == |s.futures|
    ensures f in s.answer && s.kind[f].since <= s.answer[f] < |s.pongs| && s.pongs[s.answer[f]] == s.kind[f].payload
  {
    hide DeliveryOk, SweepOk, RegistryOk, Told;
  }

  /** One Pong settles at most one probe. */
  lemma {:induction false} PongSettlesOne(ops: seq<Op>, s: Box, f: Fut, g: Fut)
    requires s == After(ops) && Succeeded(s, f) && Succeeded(s, g) && f != g
    ensures f in s.answer && g in s.answer && s.answer[f] != s.answer[g]
  {
    AnswerOf(s, f);
    AnswerOf(s, g);
    AnswersDiffer(s, f, g);
  }

  lemma {:induction false} AnswersDiffer(s: Box, f: Fut, g: Fut)
    requires Sound(s) && f in s.answer && g in s.answer && f != g
    ensures s.answer[f] != s.answer[g]
  {
    hide DeliveryOk, SweepOk, RegistryOk, Told;
  }

  // ---- one step, one Future ----

  /** A ping_waiter() call finds its payload free, and writing the Ping fails. */
  ghost predicate Breaks(s: Box, payload: bytes, writeOk: bool) {
    && s.acking == [] && |payload| <= 125 && !s.closed && s.bound && s.transport && !writeOk
    && (payload in s.pings ==>
          var f := s.pings[payload]; f < |s.futures| && f !in s.raising && !s.futures[f].Pending?)
  }

  /** What a step makes of the unsettled Future `f`: a message for the first live receiver,
      a Pong or its failing probe for a Ping, the verdict for the handshake, an exception for
      everything registered when the connection ends, or nothing. */
  ghost function SettledBy(s: Box, op: Op, f: Fut): Outcome
    requires Sound(s)
  {
    var probe := if f in s.raising then Failed else Result(None);
    match op
    case Arrive(m, raises) =>
      if !raises && Below(s.pending, |s.futures|) && FirstLive(s.futures, s.raising, s.pending) == Some(f) then
        Result(Some(m))
      else Pending
    case CallPing(p, writeOk) => if Breaks(s, p, writeOk) && IsRegistered(s, f) then Failed else Pending
    case ArrivePong(p) => if s.acking == [] && p in s.pings && s.pings[p] == f then probe else Pending
    case Acknowledge => if f in s.acking then probe else Pending
    case CancelFuture(g) => if g == f then Cancelled else Pending
    case HandshakeAccepted =>
      if s.acking == [] && s.handshake == Some(f) && f !in s.raising then Result(None) else Pending
    case HandshakeRejected => if s.acking == [] && s.handshake == Some(f) then Failed else Pending
    case TlsFailed => if s.acking == [] && s.handshake == Some(f) && f !in s.raising then Failed else Pending
    case CloseConnection => if s.acking == [] && IsRegistered(s, f) then Failed else Pending
    case _ => Pending
  }

  lemma {:induction false} RecvSpares(s: Box, f: Fut)
    requires Sound(s) && f < |s.futures|
    ensures f < |Recv(s).0.futures| && Recv(s).0.futures[f] == s.futures[f]
  {
    hide Sound, Kept, Raised, Waiting;
  }

  /** What acknowledging and teardown make of one Future. */
  lemma {:induction false} EndedAt(s: Box, f: Fut)
    requires f < |s.futures|
    ensures |Delivery.Acknowledge(s).futures| == |Teardown(s).futures| == |s.futures|
    ensures Delivery.Acknowledge(s).futures[f] ==
            if s.futures[f].Pending? && f in s.acking then (if f in s.raising then Failed else Result(None))
            else s.futures[f]
    ensures Teardown(s).futures[f] == if s.futures[f].Pending? && IsRegistered(s, f) then Failed else s.futures[f]
  {
    hide IsRegistered;
  }

  lemma {:induction false} HandshakeInRange(s: Box)
    requires Sound(s)
    ensures s.handshake.Some? ==> s.handshake.value < |s.futures| && IsRegistered(s, s.handshake.value)
  {
    hide DeliveryOk, SweepOk, HistoryOk;
  }

  /** What the end of the handshake makes of one Future. */
  lemma {:induction false} HandshakeEndAt(s: Box, outcome: Outcome, f: Fut)
    requires Sound(s) && f < |s.futures|
    ensures |LetGo(s, outcome).futures| == |RejectHandshake(s).futures| == |s.futures|
    ensures LetGo(s, outcome).futures[f] ==
            if s.handshake == Some(f) && f !in s.raising && s.futures[f].Pending? then outcome else s.futures[f]
    ensures RejectHandshake(s).futures[f] ==
            if s.handshake == Some(f) && s.futures[f].Pending? then Failed else s.futures[f]
  {
    hide Sound, IsRegistered;
    HandshakeInRange(s);
  }

  lemma {:induction false} UnsettledBy(s: Box, payload: bytes, f: Fut)
    ensures Delivery.HoldPong(s, payload).futures == s.futures
    ensures Sound(s) && f < |s.futures| && s.kind[f].Ping? ==> Cleanup(s, f).futures == s.futures
  {
    hide Sound;
  }

  lemma {:induction false} FreshPayload(s: Box, payload: bytes, f: Fut)
    requires Sound(s) && f < |s.futures| && s.futures[f].Pending?
    requires payload in s.pings ==> s.pings[payload] != f
    ensures IsRegistered(Abandon(Forget(s, payload), payload), f) <==> IsRegistered(s, f)
  {
    hide Sound;
    FewerValues(s.pings, payload);
    if f in s.pings.Values {
      var p :| p in s.pings && s.pings[p] == f;
      assert p in s.pings - {payload} && (s.pings - {payload})[p] == f;
    }
  }

  lemma {:induction false} ProbeSettles(s: Box, payload: bytes, writeOk: bool, f: Fut)
    requires Sound(s) && f < |s.futures| && s.acking == []
    ensures var t := PingWaiter(s, payload, writeOk).0;
            && f < |t.futures|
            && t.futures[f] ==
               if s.futures[f].Pending? && Breaks(s, payload, writeOk) && IsRegistered(s, f) then Failed
               else s.futures[f]
  {
    assert payload in s.pings ==> s.pings[payload] < |s.futures|;
    hide Sound, IsRegistered, Teardown;
    var t := Abandon(Forget(s, payload), payload);
    EndedAt(t, f);
    if Breaks(s, payload, writeOk) && s.futures[f].Pending? { FreshPayload(s, payload, f); }
  }

  lemma {:induction false} NextPing(s: Box, op: Op)
    requires Sound(s) && op.CallPing?
    ensures Next(s, op) == if s.acking == [] then PingWaiter(s, op.payload, op.writeOk).0 else s
  {
    hide Sound, PingWaiter;
  }

  lemma {:induction false} FirstLivePending(futures: seq<Outcome>, raising: set<Fut>, q: seq<Fut>)
    requires Below(q, |futures|)
    ensures var r := FirstLive(futures, raising, q); r.Some? ==> r.value < |futures| && futures[r.value].Pending?
  {
    if q != [] && !(q[0] !in raising && futures[q[0]].Pending?) { FirstLivePending(futures, raising, q[1..]); }
  }

  /** Arrivals, calls and Pongs aside. */
  lemma {:induction false} OtherStep(s: Box, op: Op, f: Fut)
    requires Sound(s) && f < |s.futures| && !op.Arrive? && !op.CallRecv? && !op.CallPing? && !op.ArrivePong?
    ensures var t := Next(s, op);
            f < |t.futures| && t.futures[f] == if s.futures[f].Pending? then SettledBy(s, op, f) else s.futures[f]
  {
    hide Sound, IsRegistered, Deliver, Recv, PingWaiter, PongArrives, Delivery.Acknowledge, Teardown, FirstLive;
    hide LetGo, RejectHandshake, Delivery.HoldPong, Cleanup;
    EndedAt(s, f);
    HandshakeEndAt(s, Result(None), f);
    HandshakeEndAt(s, Failed, f);
    if op.HoldPong? { UnsettledBy(s, op.payload, 0); }
    if op.RunCleanup? { UnsettledBy(s, [], op.f); }
  }

  lemma {:induction false} PongStep(s: Box, op: Op, f: Fut)
    requires Sound(s) && f < |s.futures| && op.ArrivePong?
    ensures var t := Next(s, op);
            f < |t.futures| && t.futures[f] == if s.futures[f].Pending? then SettledBy(s, op, f) else s.futures[f]
  {
    hide Sound, PongArrives;
    if s.acking == [] { PongArrivesOk(s, op.payload); }
  }

  lemma {:induction false} ArriveStep(s: Box, op: Op, f: Fut)
    requires Sound(s) && f < |s.futures| && op.Arrive?
    ensures var t := Next(s, op);
            f < |t.futures| && t.futures[f] == if s.futures[f].Pending? then SettledBy(s, op, f) else s.futures[f]
  {
    DeliverReaches(s, op.message, op.raises);
    FirstLivePending(s.futures, s.raising, s.pending);
    NextArrive(s, op);
    hide Sound, Deliver, FirstLive, Next, Due;
  }

  /** Exactly what every step does to every Future: a settled one is never touched. */
  lemma {:induction false} FutureStep(s: Box, op: Op, f: Fut)
    requires Sound(s) && f < |s.futures|
    ensures var t := Next(s, op);
            f < |t.futures| && t.futures[f] == if s.futures[f].Pending? then SettledBy(s, op, f) else s.futures[f]
  {
    hide Sound, Next, Deliver, Recv, PingWaiter, FirstLive, IsRegistered;
    if op.Arrive? {
      ArriveStep(s, op, f);
    } else if op.CallRecv? {
      RecvSpares(s, f);
      NextRecv(s);
    } else if op.CallPing? {
      if s.acking == [] { ProbeSettles(s, op.payload, op.writeOk, f); }
      NextPing(s, op);
    } else if op.ArrivePong? {
      PongStep(s, op, f);
    } else {
      OtherStep(s, op, f);
    }
  }

  /** Future `f` is settled at position `k`. */
  ghost predicate SettledAt(ops: seq<Op>, k: nat, f: Fut) {
    && k < |ops| && f < |After(ops[..k]).futures| && After(ops[..k]).futures[f].Pending?
    && !SettledBy(After(ops[..k]), ops[k], f).Pending?
  }

  /** Over every run: a Future keeps what first settled it. */
  lemma {:induction false} SettledForGood(ops: seq<Op>, k: nat, f: Fut)
    requires SettledAt(ops, k, f)
    ensures f < |After(ops).futures| && After(ops).futures[f] == SettledBy(After(ops[..k]), ops[k], f)
  {
    hide Next, SettledBy, Sound;
    var n := |ops| - 1;
    AfterSnoc(ops);
    if k < n {
      assert ops[..n][..k] == ops[..k] && ops[..n][k] == ops[k];
      SettledForGood(ops[..n], k, f);
    }
    FutureStep(After(ops[..n]), ops[n], f);
  }

  // ---- teardown ----

  /** Nothing is ever let go unsettled. */
  ghost predicate NeverStrands(ops: seq<Op>) {
    forall k :: 0 <= k < |ops| ==> Stranding(After(ops[..k]), ops[k]) == {}
  }

  /** Future `f` is let go unsettled at position `k`. */
  ghost predicate StrandsAt(ops: seq<Op>, k: nat, f: Fut) { k < |ops| && f in Stranding(After(ops[..k]), ops[k]) }

  /** Future `f` is cancelled after position `k`. */
  ghost predicate CancelledLater(ops: seq<Op>, k: nat, f: Fut) {
    exists j :: k < j < |ops| && ops[j] == CancelFuture(f)
  }

  /** Nothing reaches a stranded Future any more. */
  lemma {:induction false} StrandedIsFree(s: Box, f: Fut)
    requires Sound(s) && f in s.stranded
    ensures f < |s.futures| && !IsRegistered(s, f) && f !in s.acking
  {
    hide DeliveryOk, SweepOk, Accounted, HistoryOk;
  }

  /** Nothing but cancelling it settles a stranded Future. */
  lemma {:induction false} NextSpares(s: Box, op: Op, f: Fut)
    requires Sound(s) && f in s.stranded
    ensures var t := Next(s, op);
            && f < |s.futures| && f < |t.futures| && f in t.stranded
            && (t.futures[f].Pending? <==> s.futures[f].Pending? && op != CancelFuture(f))
  {
    StrandedIsFree(s, f);
    FirstLiveInQueue(s.futures, s.raising, s.pending);
    hide Sound, Next, FirstLive, Stranding;
    NextStranded(s, op);
    FutureStep(s, op, f);
    if op.ArrivePong? && op.payload in s.pings { assert s.pings[op.payload] in s.pings.Values; }
  }

  /** A Future let go at position `k` stays unsettled unless it is cancelled. */
  lemma {:induction false} StrandedFate(ops: seq<Op>, k: nat, f: Fut)
    requires StrandsAt(ops, k, f)
    ensures var s := After(ops);
            && f in s.stranded && f < |s.futures|
            && (s.futures[f].Pending? <==> !CancelledLater(ops, k, f))
  {
    hide Sound, Next, Stranding;
    var n := |ops| - 1;
    var before := ops[..n];
    AfterSnoc(ops);
    if k == n {
      NextStranded(After(before), ops[n]);
      StrandingPending(After(before), ops[n], f);
    } else {
      assert before[..k] == ops[..k] && before[k] == ops[k];
      StrandedFate(before, k, f);
      NextSpares(After(before), ops[n], f);
      CancelledSnoc(ops, k, f);
    }
  }

  lemma {:induction false} CancelledSnoc(ops: seq<Op>, k: nat, f: Fut)
    requires k < |ops| - 1
    ensures var n := |ops| - 1; CancelledLater(ops, k, f) <==>
      CancelledLater(ops[..n], k, f) || ops[n] == CancelFuture(f)
  {
    var n := |ops| - 1;
    if CancelledLater(ops[..n], k, f) {
      var j :| k < j < n && ops[..n][j] == CancelFuture(f);
      assert ops[j] == CancelFuture(f);
    }
    if CancelledLater(ops, k, f) && ops[n] != CancelFuture(f) {
      var j :| k < j < |ops| && ops[j] == CancelFuture(f);
      assert ops[..n][j] == CancelFuture(f);
    }
  }

  /** What a step lets go is unsettled right after it. */
  lemma {:induction false} StrandingPending(s: Box, op: Op, f: Fut)
    requires Sound(s) && f in Stranding(s, op)
    ensures f < |Next(s, op).futures| && Next(s, op).futures[f].Pending?
  {
    AckingBelow(s);
    if op.Arrive? {
      DeliverReaches(s, op.message, op.raises);
      FirstLivePending(s.futures, s.raising, s.pending);
    }
    hide Sound, Deliver, FirstLive;
  }

  lemma {:induction false} StrandedFrom(ops: seq<Op>, f: Fut) returns (k: nat)
    requires f in After(ops).stranded
    ensures StrandsAt(ops, k, f)
  {
    hide Sound, Next, Stranding;
    if ops == [] { assert false; }
    var n := |ops| - 1;
    var before := ops[..n];
    NextStranded(After(before), ops[n]);
    if f in After(before).stranded {
      k := StrandedFrom(before, f);
      assert before[..k] == ops[..k] && before[k] == ops[k];
    } else {
      k := n;
    }
  }

  /** Teardown totality, exactly: on a closed connection every registry is empty, and every
      Future ever created is settled if and only if each Future that a step let go
      unsettled was cancelled by its owner afterwards. */
  lemma {:induction false} SettledIff(ops: seq<Op>)
    requires After(ops).closed
    ensures Emptied(After(ops))
    ensures (forall f :: 0 <= f < |After(ops).futures| ==> !After(ops).futures[f].Pending?)
            <==> (forall k: nat, f: Fut :: StrandsAt(ops, k, f) ==> CancelledLater(ops, k, f))
  {
    ClosedSettled(After(ops));
    SoundClosed(After(ops));
    hide Sound, After, StrandsAt, CancelledLater, Emptied;
    forall k: nat, f: Fut | StrandsAt(ops, k, f)
      ensures f < |After(ops).futures| && (After(ops).futures[f].Pending? <==> !CancelledLater(ops, k, f))
    {
      StrandedFate(ops, k, f);
    }
    if f :| 0 <= f < |After(ops).futures| && After(ops).futures[f].Pending? {
      var k := StrandedFrom(ops, f);
    }
  }

  /** The common case: nothing was let go, so nothing hangs. */
  lemma {:induction false} TeardownTotal(ops: seq<Op>)
    requires After(ops).closed && NeverStrands(ops)
    ensures Emptied(After(ops)) && forall f :: 0 <= f < |After(ops).futures| ==> !After(ops).futures[f].Pending?
  {
    forall k: nat, f: Fut ensures !StrandsAt(ops, k, f) {
      hide After, Stranding;
    }
    hide After, StrandsAt, NeverStrands;
    SettledIff(ops);
  }

  /** Closing is final: no later step registers a Future. */
  lemma {:induction false} ClosedForGood(ops: seq<Op>, op: Op)
    requires After(ops).closed
    ensures var t := After(ops + [op]); t.closed && Emptied(t) && |t.futures| == |After(ops).futures|
  {
    hide Next;
    AfterAppend(ops, op);
    NextClosed(After(ops), op);
  }

  // ---- the handshake Future ----

  /** Future 0 is the handshake's, and no other is. */
  ghost predicate OneHandshake(kind: seq<Kind>) {
    |kind| > 0 && kind[0].Handshake? && forall f :: 0 < f < |kind| ==> !kind[f].Handshake?
  }

  /** Acceptance finds the handshake Future registered, unsettled and answering its probe. */
  ghost predicate Accepts(s: Box, op: Op) {
    && op.HandshakeAccepted? && s.acking == [] && s.handshake.Some? && s.handshake.value !in s.raising
    && s.handshake.value < |s.futures| && s.futures[s.handshake.value].Pending?
  }

  lemma {:induction false} KindsGrow(s: Box, op: Op)
    requires Sound(s) && OneHandshake(s.kind)
    ensures OneHandshake(Next(s, op).kind)
  {
    hide Sound, Deliver, Recv, IsRegistered;
    if op.Arrive? { DeliverOk(s, op.message, op.raises); }
    if op.CallRecv? { RecvOk(s); }
  }

  lemma {:induction false} HandshakeIsZero(s: Box)
    requires Sound(s) && OneHandshake(s.kind)
    ensures |s.futures| > 0 && (s.handshake.Some? ==> s.handshake.value == 0)
    ensures 0 !in s.pending && 0 !in s.quarantined && 0 !in s.acking && 0 !in s.pings.Values
    ensures Below(s.pending, |s.futures|) && FirstLive(s.futures, s.raising, s.pending) != Some(0)
  {
    assert AllReceivers(s.kind, s.pending) && Below(s.pending, |s.futures|);
    FirstLiveInQueue(s.futures, s.raising, s.pending);
    hide DeliveryOk, SweepOk, Accounted, Apart, HistoryOk, FirstLive;
  }

  /** One step: the handshake Future gets a result exactly when acceptance finds it fit. */
  lemma {:induction false} NextHandshake(s: Box, op: Op)
    requires Sound(s) && OneHandshake(s.kind)
    ensures var t := Next(s, op);
            |s.futures| > 0 && |t.futures| > 0 && (t.futures[0].Result? <==> s.futures[0].Result? || Accepts(s, op))
  {
    hide Sound, Next, FirstLive, IsRegistered;
    HandshakeIsZero(s);
    FutureStep(s, op, 0);
    if op.ArrivePong? && op.payload in s.pings { assert s.pings[op.payload] in s.pings.Values; }
  }

  ghost predicate AcceptsAt(ops: seq<Op>, k: nat) { k < |ops| && Accepts(After(ops[..k]), ops[k]) }

  /** Over every run: the handshake Future holds a result if and only if acceptance took it
      unsettled with an answering probe. */
  lemma {:induction false} HandshakeResult(ops: seq<Op>)
    ensures OneHandshake(After(ops).kind) && |After(ops).futures| > 0
    ensures After(ops).futures[0].Result? <==> exists k: nat :: AcceptsAt(ops, k)
  {
    if ops == [] {
      assert After(ops) == Init();
    } else {
      var n := |ops| - 1;
      var before := ops[..n];
      hide Sound, Next, Accepts, Init;
      HandshakeResult(before);
      AfterSnoc(ops);
      KindsGrow(After(before), ops[n]);
      NextHandshake(After(before), ops[n]);
      hide After;
      AcceptsSnoc(ops);
    }
  }

  lemma {:induction false} AcceptsPrefix(ops: seq<Op>, k: nat)
    requires k < |ops| - 1
    ensures AcceptsAt(ops[..|ops| - 1], k) <==> AcceptsAt(ops, k)
  {
    hide After, Accepts, Sound;
    var before := ops[..|ops| - 1];
    assert before[..k] == ops[..k] && before[k] == ops[k];
  }

  lemma {:induction false} AcceptsSnoc(ops: seq<Op>)
    requires ops != []
    ensures var n := |ops| - 1;
            (exists k: nat :: AcceptsAt(ops, k)) <==>
            (exists k: nat :: AcceptsAt(ops[..n], k)) || Accepts(After(ops[..n]), ops[n])
  {
    hide *;
    var n := |ops| - 1;
    AcceptsLast(ops);
    forall k: nat ensures AcceptsAt(ops[..n], k) <==> AcceptsAt(ops, k) && k != n {
      AcceptsBounds(ops[..n], k);
      AcceptsBounds(ops, k);
      if k < n { AcceptsPrefix(ops, k); }
    }
  }

  lemma {:induction false} AcceptsBounds(ops: seq<Op>, k: nat)
    ensures AcceptsAt(ops, k) ==> k < |ops|
  {
    hide After, Accepts, Sound;
  }

  lemma {:induction false} AcceptsLast(ops: seq<Op>)
    requires ops != []
    ensures AcceptsAt(ops, |ops| - 1) <==> Accepts(After(ops[..|ops| - 1]), ops[|ops| - 1])
  {
    hide After, Accepts, Sound;
  }

  lemma {:induction false} OnlyOwnersCancel(s: Box, op: Op, f: Fut)
    requires Sound(s)
    ensures SettledBy(s, op, f).Cancelled? ==> op == CancelFuture(f)
  {
    hide Sound, FirstLive, IsRegistered;
  }

  /** The handshake Future is cancelled only by its owner. */
  lemma {:induction false} HandshakeCancelled(ops: seq<Op>)
    requires |After(ops).futures| > 0 && After(ops).futures[0].Cancelled?
    ensures CancelFuture(0) in ops
  {
    if ops == [] {
      assert false;
    } else {
      hide Next, SettledBy, Sound, Init;
      var n := |ops| - 1;
      HandshakeResult(ops[..n]);
      AfterSnoc(ops);
      FutureStep(After(ops[..n]), ops[n], 0);
      OnlyOwnersCancel(After(ops[..n]), ops[n], 0);
      hide After;
      if After(ops[..n]).futures[0].Cancelled? { HandshakeCancelled(ops[..n]); }
    }
  }

  ghost predicate Verdictless(ops: seq<Op>) { forall op :: op in ops ==> !op.HandshakeAccepted? && !op.TlsFailed? }

  lemma {:induction false} StrandsOthers(s: Box, op: Op)
    requires Sound(s) && OneHandshake(s.kind) && !op.HandshakeAccepted? && !op.TlsFailed?
    ensures 0 !in Stranding(s, op)
  {
    HandshakeIsZero(s);
    hide Sound, FirstLive;
  }

  lemma {:induction false} HandshakeNotStranded(ops: seq<Op>)
    requires Verdictless(ops)
    ensures 0 !in After(ops).stranded
  {
    hide Next, Sound, Stranding;
    if ops == [] {
      assert After(ops) == Init();
    } else {
      var n := |ops| - 1;
      HandshakeNotStranded(ops[..n]);
      HandshakeResult(ops[..n]);
      AfterSnoc(ops);
      StrandsOthers(After(ops[..n]), ops[n]);
      NextStranded(After(ops[..n]), ops[n]);
    }
  }

  lemma {:induction false} HandshakeRegistered(s: Box)
    requires Sound(s) && OneHandshake(s.kind) && |s.futures| > 0 && s.futures[0].Pending? && 0 !in s.stranded
    ensures s.handshake == Some(0)
  {
    hide DeliveryOk, SweepOk, HistoryOk;
  }

  /** A rejected handshake fails its Future, unless its owner cancelled it first. */
  lemma {:induction false} RejectionFails(ops: seq<Op>, k: nat)
    requires Verdictless(ops) && k < |ops| && ops[k].HandshakeRejected? && After(ops[..k]).acking == []
    ensures |After(ops).futures| > 0
    ensures After(ops).futures[0].Failed? || (After(ops).futures[0].Cancelled? && CancelFuture(0) in ops)
  {
    hide Sound, After;
    var s := After(ops[..k]);
    HandshakeResult(ops[..k]);
    HandshakeResult(ops);
    HandshakeNotStranded(ops[..k]);
    NoAcceptance(ops);
    if s.futures[0].Pending? {
      HandshakeRegistered(s);
      Rejects(s, ops[k]);
      SettledForGood(ops, k, 0);
    } else {
      StaysSettled(ops, k, 0);
    }
    if After(ops).futures[0].Cancelled? { HandshakeCancelled(ops); }
  }

  lemma {:induction false} NoAcceptance(ops: seq<Op>)
    requires Verdictless(ops)
    ensures forall k: nat :: !AcceptsAt(ops, k)
  {
    hide Sound, After;
  }

  lemma {:induction false} Rejects(s: Box, op: Op)
    requires Sound(s) && op.HandshakeRejected? && s.acking == [] && s.handshake == Some(0)
    ensures SettledBy(s, op, 0) == Failed
  {
    hide Sound;
  }

  lemma {:induction false} StaysSettled(ops: seq<Op>, k: nat, f: Fut)
    requires k <= |ops| && f < |After(ops[..k]).futures| && !After(ops[..k]).futures[f].Pending?
    ensures f < |After(ops).futures| && After(ops).futures[f] == After(ops[..k]).futures[f]
  {
    hide Next, SettledBy, Sound;
    if k == |ops| {
      assert ops[..k] == ops;
    } else {
      var n := |ops| - 1;
      assert ops[..n][..k] == ops[..k];
      StaysSettled(ops[..n], k, f);
      AfterSnoc(ops);
      FutureStep(After(ops[..n]), ops[n], f);
    }
  }

  // ---- runs on which the promises fail ----

  /** A closed connection with empty registries on which Future `f` is still pending. */
  ghost predicate Hangs(s: Box, f: Fut) { s.closed && Emptied(s) && f < |s.futures| && s.futures[f].Pending? }

  lemma {:induction false} TeardownHangs(s: Box, f: Fut)
    requires Sound(s) && s.acking == [] && f in s.stranded && f < |s.futures| && s.futures[f].Pending?
    ensures Next(s, CloseConnection) == Teardown(s) && Hangs(Teardown(s), f)
  {
    hide Sound, Emptied, IsRegistered;
    TeardownSettles(s, f);
  }

  /** Closing does not reach a Future that was let go. */
  lemma {:induction false} HangsAfterClose(ops: seq<Op>, k: nat, f: Fut)
    requires StrandsAt(ops, k, f) && After(ops).acking == [] && !CancelledLater(ops, k, f)
    ensures Hangs(After(ops + [CloseConnection]), f)
  {
    hide After, Hangs, Teardown, StrandsAt, CancelledLater, Sound, Next;
    StrandedFate(ops, k, f);
    TeardownHangs(After(ops), f);
    AfterAppend(ops, CloseConnection);
  }

  lemma {:induction false} AfterOne(op: Op)
    ensures Sound(Init()) && After([op]) == Next(Init(), op)
  {
    hide Sound, Next, Init;
    AfterAppend([], op);
    assert [] + [op] == [op];
  }

  lemma {:induction false} FreshLetsGo(s: Box, op: Op)
    requires Sound(s) && s == Init().(raising := {0}) && (op.HandshakeAccepted? || op.TlsFailed?)
    ensures 0 in Stranding(s, op) && Next(s, op).acking == []
  {
    hide Sound, FirstLive, Due;
  }

  lemma {:induction false} RaisingFromTheStart()
    ensures After([ChangeProbes({0})]) == Init().(raising := {0})
  {
    hide After, Sound, Init, Next;
    AfterOne(ChangeProbes({0}));
    NextProbes(Init(), {0});
  }

  lemma {:induction false} NextProbes(s: Box, raising: set<Fut>)
    requires Sound(s)
    ensures Next(s, ChangeProbes(raising)) == s.(raising := raising)
  {
    hide Sound;
  }

  /** The handshake Future, when its probe raises while `op` takes it. */
  lemma {:induction false} HandshakeFutureHangs(op: Op)
    requires op.HandshakeAccepted? || op.TlsFailed?
    ensures Hangs(After([ChangeProbes({0})] + [op] + [CloseConnection]), 0)
  {
    var a := [ChangeProbes({0})];
    var s := After(a);
    hide After, Sound, Stranding, CancelledLater, Hangs, Next, Init;
    RaisingFromTheStart();
    FreshLetsGo(s, op);
    var ops := a + [op];
    assert ops[..1] == a && ops[1] == op;
    AfterAppend(a, op);
    NotCancelled(ops, 1, 0);
    HangsAfterClose(ops, 1, 0);
  }

  lemma {:induction false} NotCancelled(ops: seq<Op>, k: nat, f: Fut)
    requires k + 1 == |ops|
    ensures !CancelledLater(ops, k, f)
  {
  }

  lemma {:induction false} WaitingReceiver()
    ensures var s := After([CallRecv]);
            s.pending == [1] && s.futures == [Pending, Pending] && s.raising == {} && s.acking == []
  {
    hide Sound, After, Next, Recv, Init;
    AfterOne(CallRecv);
    NextRecv(Init());
    FreshRecv();
  }

  lemma {:induction false} FreshRecv()
    requires Sound(Init())
    ensures Init().acking == []
    ensures var s := Recv(Init()).0;
            s.pending == [1] && s.futures == [Pending, Pending] && s.raising == {} && s.acking == []
  {
    hide Sound, Kept, Raised, Waiting;
    RecvParks(Init());
    hide Recv;
  }

  lemma {:induction false} ReceiverLoses(s: Box, m: bytes)
    requires Sound(s) && s.pending == [1] && s.futures == [Pending, Pending] && s.raising == {} && s.acking == []
    ensures Loses(s, Arrive(m, true)) && 1 in Stranding(s, Arrive(m, true)) && Next(s, Arrive(m, true)).acking == []
  {
    hide Sound, Deliver, SkipToLive, Next;
    assert FirstLive(s.futures, s.raising, s.pending) == Some(1);
    NextArrive(s, Arrive(m, true));
    DeliverCases(s, m, true);
    DeliverReaches(s, m, true);
    SkipToLiveOk(s);
  }

  /** A message, when the second look at the one waiting receiver raises: it arrives, no
      call ever gets it, and the receiver hangs after close. */
  lemma {:induction false} MessageLost(m: bytes)
    ensures var ops := [CallRecv] + [Arrive(m, true)];
            && Arrivals(ops) == [m] && Collected(Answers(ops), After(ops).futures) + After(ops).backlog == []
            && Hangs(After(ops + [CloseConnection]), 1)
  {
    var a, op := [CallRecv], Arrive(m, true);
    var ops := a + [op];
    hide After, Sound, Stranding, CancelledLater, Hangs, Next, Loses, Answers, Collected, NeverLoses;
    WaitingReceiver();
    ReceiverLoses(After(a), m);
    assert ops[..1] == a && ops[1] == op;
    AfterAppend(a, op);
    NotCancelled(ops, 1, 1);
    HangsAfterClose(ops, 1, 1);
    assert [] + a == a;
    SurvivorsSnoc([], CallRecv);
    SurvivorsSnoc(a, op);
    ReceiveConservation(ops);
  }
}
