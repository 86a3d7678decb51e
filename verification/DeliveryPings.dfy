/** What becomes of a probe: every run on which its Pong comes in time gives it a result. */
module DeliveryPings {
  import opened Common
  import opened DeliveryOrder
  import opened Delivery
  import opened DeliveryRuns
  import opened DeliveryFates

  // ---- starting a probe ----

  /** An open client has an event loop and a transport. */
  lemma {:induction false} OpenIsBound(ops: seq<Op>)
    ensures !After(ops).closed ==> After(ops).bound && After(ops).transport
  {
    hide Next, Sound;
    if ops == [] {
      assert After(ops) == Init();
    } else {
      var n := |ops| - 1;
      OpenIsBound(ops[..n]);
      AfterSnoc(ops);
      NextBound(After(ops[..n]), ops[n]);
    }
  }

  lemma {:induction false} NextBound(s: Box, op: Op)
    requires Sound(s)
    ensures var t := Next(s, op);
            && (s.closed ==> t.closed)
            && (!t.closed ==> t.bound == s.bound && t.transport == s.transport)
  {
    hide Sound, Deliver, Recv, PingWaiter, IsRegistered, SettleOne;
    if op.Arrive? { DeliverOk(s, op.message, op.raises); }
    if op.CallRecv? { RecvBound(s); }
    if op.CallPing? { PingBound(s, op.payload, op.writeOk); }
  }

  lemma {:induction false} RecvBound(s: Box)
    requires Sound(s)
    ensures var t := Recv(s).0; t.closed == s.closed && t.bound == s.bound && t.transport == s.transport
  {
    hide Sound, Kept, Raised, Waiting;
  }

  lemma {:induction false} PingBound(s: Box, payload: bytes, writeOk: bool)
    requires Sound(s)
    ensures var t := PingWaiter(s, payload, writeOk).0;
            && (s.closed ==> t.closed)
            && (!t.closed ==> t.bound == s.bound && t.transport == s.transport)
  {
    hide Sound, IsRegistered;
  }

  /** The ping_waiter() call at position `k` starts probe `f`. */
  ghost predicate StartsAt(ops: seq<Op>, k: nat, payload: bytes, f: Fut) {
    && k < |ops| && ops[k].CallPing? && ops[k].payload == payload && After(ops[..k]).acking == []
    && PingWaiter(After(ops[..k]), payload, ops[k].writeOk).1 == Probing(f)
  }

  /** On every run a call starts a probe exactly if the payload is a legal, free one, the
      connection is open and the Ping is written; and then with a new Future. */
  lemma {:induction false} StartsIff(ops: seq<Op>, k: nat, payload: bytes, f: Fut)
    requires k < |ops| && ops[k].CallPing? && ops[k].payload == payload && After(ops[..k]).acking == []
    ensures var s := After(ops[..k]);
            StartsAt(ops, k, payload, f) <==>
            |payload| <= 125 && !s.closed && ops[k].writeOk && Free(s, payload) && f == |s.futures|
  {
    hide Sound, After, PingWaiter, Free;
    OpenIsBound(ops[..k]);
    PingWaiterAnswers(After(ops[..k]), payload, ops[k].writeOk);
  }

  // ---- waiting for the Pong ----

  /** Probe `f` waits for a Pong with this payload. */
  ghost predicate Awaits(s: Box, payload: bytes, f: Fut) {
    payload in s.pings && s.pings[payload] == f && f < |s.futures| && s.futures[f].Pending?
  }

  lemma {:induction false} StartAwaits(ops: seq<Op>, k: nat, payload: bytes, f: Fut)
    requires StartsAt(ops, k, payload, f)
    ensures Awaits(After(ops[..k + 1]), payload, f) && !After(ops[..k + 1]).closed
  {
    hide Sound, After, PingWaiter, Next, Awaits;
    var s, now := After(ops[..k]), ops[..k + 1];
    assert now[..k] == ops[..k] && now[k] == ops[k] && |now| - 1 == k;
    AfterSnoc(now);
    NextPing(s, ops[k]);
    ProbeAwaits(s, payload, ops[k].writeOk);
  }

  lemma {:induction false} ProbeAwaits(s: Box, payload: bytes, writeOk: bool)
    requires Sound(s)
    ensures var (t, r) := PingWaiter(s, payload, writeOk); r.Probing? ==> Awaits(t, payload, r.future) && !t.closed
  {
    hide Sound, PingWaiter, Free;
    PingWaiterAnswers(s, payload, writeOk);
  }

  /** Facts about a waiting probe that the invariant gives. */
  lemma {:induction false} AwaitsAlone(s: Box, payload: bytes, f: Fut)
    requires Sound(s) && Awaits(s, payload, f)
    ensures f !in s.acking && s.handshake != Some(f) && |s.kind| == |s.futures|
    ensures FirstLiveIsNot(s, f)
    ensures forall p :: p in s.pings && s.pings[p] == f ==> p == payload
  {
    assert AllReceivers(s.kind, s.pending) && Below(s.pending, |s.futures|);
    FirstLiveInQueue(s.futures, s.raising, s.pending);
    assert f in s.pings.Values;
    hide DeliveryOk, SweepOk, Accounted, HistoryOk, FirstLive;
  }

  ghost predicate FirstLiveIsNot(s: Box, f: Fut) {
    Below(s.pending, |s.futures|) && FirstLive(s.futures, s.raising, s.pending) != Some(f)
  }

  /** Only its Pong, its owner and the end of the connection settle a waiting probe. */
  lemma {:induction false} AwaitsSettled(s: Box, op: Op, payload: bytes, f: Fut)
    requires Sound(s) && Awaits(s, payload, f) && !BringsPong(op, payload) && op != CancelFuture(f)
    requires !Next(s, op).closed
    ensures f < |Next(s, op).futures| && Next(s, op).futures[f].Pending?
  {
    FutureStep(s, op, f);
    AwaitsAlone(s, payload, f);
    if op.CallPing? { BreaksCloses(s, op); }
    if op.CloseConnection? { CloseCloses(s); }
    hide Sound, Next, FirstLive, IsRegistered, Breaks;
  }

  lemma {:induction false} BreaksCloses(s: Box, op: Op)
    requires Sound(s) && op.CallPing?
    ensures Breaks(s, op.payload, op.writeOk) ==> Next(s, op).closed
  {
    NextPing(s, op);
    PingWaiterAnswers(s, op.payload, op.writeOk);
    hide Sound, Next, PingWaiter;
  }

  lemma {:induction false} CloseCloses(s: Box)
    requires Sound(s)
    ensures s.acking == [] ==> Next(s, CloseConnection).closed
  {
    hide Sound, IsRegistered;
  }

  /** Nothing else removes its registry entry either. */
  lemma {:induction false} AwaitsRegistered(s: Box, op: Op, payload: bytes, f: Fut)
    requires Sound(s) && Awaits(s, payload, f) && !BringsPong(op, payload) && !Next(s, op).closed
    ensures payload in Next(s, op).pings && Next(s, op).pings[payload] == f
  {
    hide Sound, Deliver, Recv, PingWaiter, PongArrives, IsRegistered, SettleOne;
    if op.Arrive? { DeliverOk(s, op.message, op.raises); }
    if op.CallRecv? { RecvKeepsPings(s); }
    if op.CallPing? { PingKeepsPings(s, op.payload, op.writeOk, payload, f); }
    if op.ArrivePong? && s.acking == [] { PongArrivesOk(s, op.payload); }
  }

  lemma {:induction false} RecvKeepsPings(s: Box)
    requires Sound(s)
    ensures Recv(s).0.pings == s.pings
  {
    hide Sound, Kept, Raised, Waiting;
  }

  lemma {:induction false} PingKeepsPings(s: Box, p: bytes, writeOk: bool, payload: bytes, f: Fut)
    requires Sound(s) && Awaits(s, payload, f)
    ensures var t := PingWaiter(s, p, writeOk).0; !t.closed ==> payload in t.pings && t.pings[payload] == f
  {
    hide Sound, IsRegistered;
  }

  /** A probe goes on waiting until its first Pong, unless it is cancelled or the connection ends. */
  lemma {:induction false} StillAwaits(ops: seq<Op>, k: nat, m: nat, payload: bytes, f: Fut)
    requires k < m <= |ops| && StartsAt(ops, k, payload, f) && !After(ops[..m]).closed
    requires forall j :: k < j < m ==> !BringsPong(ops[j], payload) && ops[j] != CancelFuture(f)
    ensures Awaits(After(ops[..m]), payload, f)
  {
    hide Sound, After, Next, Awaits, StartsAt, BringsPong;
    if m == k + 1 {
      StartAwaits(ops, k, payload, f);
    } else {
      var s, op := After(ops[..m - 1]), ops[m - 1];
      assert ops[..m][..m - 1] == ops[..m - 1] && ops[..m][m - 1] == op;
      AfterSnoc(ops[..m]);
      NextBound(s, op);
      StillAwaits(ops, k, m - 1, payload, f);
      AwaitsNext(s, op, payload, f);
    }
  }

  lemma {:induction false} AwaitsNext(s: Box, op: Op, payload: bytes, f: Fut)
    requires Sound(s) && Awaits(s, payload, f) && !BringsPong(op, payload) && op != CancelFuture(f)
    requires !Next(s, op).closed
    ensures Awaits(Next(s, op), payload, f)
  {
    hide Sound, Next, BringsPong;
    AwaitsSettled(s, op, payload, f);
    AwaitsRegistered(s, op, payload, f);
  }

  // ---- the Pong ----

  /** What a Pong gives a probe: a result, or an exception if its probe raises. */
  ghost function Acknowledged(s: Box, f: Fut): Outcome { if f in s.raising then Failed else Result(None) }

  /**
   The converse of correlation, for a Pong outside a scan. If the first Pong with the
   payload arrives while the connection is open and before the owner cancels, the probe has
   its answer from then on: a result, unless its probe raises just then.
   */
  lemma {:induction false} PongAnswers(ops: seq<Op>, k: nat, m: nat, payload: bytes, f: Fut)
    requires k < m < |ops| && StartsAt(ops, k, payload, f) && !After(ops[..m]).closed
    requires forall j :: k < j < m ==> !BringsPong(ops[j], payload) && ops[j] != CancelFuture(f)
    requires ops[m] == ArrivePong(payload) && After(ops[..m]).acking == []
    ensures f < |After(ops).futures| && After(ops).futures[f] == Acknowledged(After(ops[..m]), f)
  {
    hide Sound, After, Next, StartsAt, BringsPong;
    StillAwaits(ops, k, m, payload, f);
    PongSettles(After(ops[..m]), ops[m], f);
    SettledForGood(ops, m, f);
  }

  lemma {:induction false} PongSettles(s: Box, op: Op, f: Fut)
    requires Sound(s) && op.ArrivePong? && Awaits(s, op.payload, f) && s.acking == []
    ensures SettledBy(s, op, f) == Acknowledged(s, f)
  {
    hide Sound;
  }

  // ---- a Pong met in a scan ----

  /** Probe `f` is in the hands of a scan that has met its Pong. */
  ghost predicate InHand(s: Box, f: Fut) { f in s.acking && f < |s.futures| && s.futures[f].Pending? }

  lemma {:induction false} HeldInHand(s: Box, op: Op, payload: bytes, f: Fut)
    requires Sound(s) && op == HoldPong(payload) && Awaits(s, payload, f)
    ensures InHand(Next(s, op), f)
  {
    hide Sound;
  }

  /** Calls wait for the scan; messages, Pongs and probe changes leave the probe in hand. */
  lemma {:induction false} InHandNext(s: Box, op: Op, f: Fut)
    requires Sound(s) && InHand(s, f) && !op.Acknowledge? && op != CancelFuture(f) && !Loses(s, op)
    ensures InHand(Next(s, op), f)
  {
    InHandAlone(s, f);
    FutureStep(s, op, f);
    StaysInHand(s, op, f);
    hide Sound, Next, FirstLive, IsRegistered, Breaks;
  }

  lemma {:induction false} InHandAlone(s: Box, f: Fut)
    requires Sound(s) && InHand(s, f)
    ensures FirstLiveIsNot(s, f) && s.acking != []
  {
    assert AllReceivers(s.kind, s.pending) && Below(s.pending, |s.futures|);
    FirstLiveInQueue(s.futures, s.raising, s.pending);
    hide DeliveryOk, SweepOk, Accounted, Apart, HistoryOk, FirstLive;
  }

  lemma {:induction false} StaysInHand(s: Box, op: Op, f: Fut)
    requires Sound(s) && f in s.acking && !op.Acknowledge? && !Loses(s, op)
    ensures f in Next(s, op).acking
  {
    if op.Arrive? {
      DeliverCases(s, op.message, op.raises);
      SkipFindsFirstLive(s);
      SkipToLiveOk(s);
    }
    hide Sound, Deliver, SkipToLive, FirstLive, Recv, PingWaiter, PongArrives, Teardown, IsRegistered;
  }

  lemma {:induction false} StillInHand(ops: seq<Op>, m: nat, j: nat, f: Fut)
    requires m <= j <= |ops| && InHand(After(ops[..m]), f)
    requires forall i :: m <= i < j ==>
               !ops[i].Acknowledge? && ops[i] != CancelFuture(f) && !Loses(After(ops[..i]), ops[i])
    ensures InHand(After(ops[..j]), f)
  {
    hide Sound, After, Next, InHand, Loses;
    if m < j {
      StillInHand(ops, m, j - 1, f);
      var now := ops[..j];
      assert now[..j - 1] == ops[..j - 1] && now[j - 1] == ops[j - 1];
      AfterSnoc(now);
      InHandNext(After(ops[..j - 1]), ops[j - 1], f);
    }
  }

  /**
   The same for a Pong a scan meets at `m` and acknowledges at `j`. Until then only the
   owner, or a delivery that loses its message and ends the scan, can come in between.
   */
  lemma {:induction false} ScanAnswers(ops: seq<Op>, k: nat, m: nat, j: nat, payload: bytes, f: Fut)
    requires k < m < j < |ops| && StartsAt(ops, k, payload, f) && !After(ops[..m]).closed
    requires forall i :: k < i < m ==> !BringsPong(ops[i], payload) && ops[i] != CancelFuture(f)
    requires ops[m] == HoldPong(payload) && ops[j].Acknowledge?
    requires forall i :: m < i < j ==>
               !ops[i].Acknowledge? && ops[i] != CancelFuture(f) && !Loses(After(ops[..i]), ops[i])
    ensures f < |After(ops).futures| && After(ops).futures[f] == Acknowledged(After(ops[..j]), f)
  {
    hide Sound, After, Next, StartsAt, BringsPong, Loses;
    StillAwaits(ops, k, m, payload, f);
    var now := ops[..m + 1];
    assert now[..m] == ops[..m] && now[m] == ops[m];
    AfterSnoc(now);
    HeldInHand(After(ops[..m]), ops[m], payload, f);
    StillInHand(ops, m + 1, j, f);
    HandSettles(After(ops[..j]), ops[j], f);
    SettledForGood(ops, j, f);
  }

  lemma {:induction false} HandSettles(s: Box, op: Op, f: Fut)
    requires Sound(s) && op.Acknowledge? && InHand(s, f)
    ensures SettledBy(s, op, f) == Acknowledged(s, f)
  {
    hide Sound;
  }
}
