/** The client's queues and registries as they are updated in place. */
module Mailbox {
  import opened Common
  import opened DeliveryOrder
  import opened Delivery
  import opened DeliveryRuns

  class State {
    var pendingRecv: seq<Fut>
    var unprobeableRecv: seq<Fut>
    var recvSweepAt: nat
    var backlog: seq<bytes>
    var pendingPings: map<bytes, Fut>
    var handshakeFut: Option<Fut>
    var closed: bool
    var loopBound: bool
    var hasTransport: bool
    // Probes whose Pong the scan in progress has met (locals of the scan in the source).
    var acks: seq<Fut>

    // The event loop's Futures, and those whose done() raises.
    var futures: seq<Outcome>
    var raising: set<Fut>

    /** The abstract state these fields show, with the history no code reads. */
    ghost var abs: Box

    ghost function View(): Box
      reads this
    {
      abs
    }

    ghost predicate Shows(s: Box)
      reads this
    {
      && s.pending == pendingRecv && s.quarantined == unprobeableRecv && s.sweepAt == recvSweepAt
      && s.backlog == backlog && s.pings == pendingPings && s.handshake == handshakeFut && s.acking == acks
      && s.closed == closed && s.bound == loopBound && s.transport == hasTransport
      && s.futures == futures && s.raising == raising
    }

    ghost predicate Valid()
      reads this
    {
      Shows(abs) && Sound(abs)
    }

    constructor ()
      ensures Valid() && View() == Init()
    {
      pendingRecv, unprobeableRecv, recvSweepAt, backlog := [], [], RECV_SWEEP_MIN, [];
      pendingPings, handshakeFut, closed, loopBound, hasTransport := map[], Some(0), false, true, true;
      acks, futures, raising := [], [Pending], {};
      abs := Init();
      new;
      assert Shows(abs);
      hide *;
      InitOk();
    }

    /** done(): the answer, or None if the probe raises. */
    function Done(f: Fut): (r: Option<bool>)
      requires f < |futures|
      reads this
    {
      if f in raising then None else Some(!futures[f].Pending?)
    }

    // ---- delivery ----

    /** Pop receivers until one is still waiting, and pop that one too. */
    method TakeLiveReceiver() returns (r: Option<Fut>)
      requires Shows(abs) && Below(abs.pending, |abs.futures|)
      modifies this`pendingRecv, this`unprobeableRecv, this`abs
      ensures Shows(abs)
      ensures var t := SkipToLive(old(abs));
              && (r.None? <==> t.pending == [])
              && abs == (if r.None? then t else t.(pending := t.pending[1..]))
              && (r.Some? ==> r.value == t.pending[0] && r.value < |futures|)
    {
      hide Shows, SkipToLive, Pop;
      ShowsReceivers();
      while pendingRecv != []
        invariant Shows(abs) && Below(abs.pending, |abs.futures|) && SkipToLive(abs) == SkipToLive(old(abs))
        invariant pendingRecv == abs.pending && futures == abs.futures && raising == abs.raising
        decreases |pendingRecv|
      {
        SkipUnfold(abs);
        var f := pendingRecv[0];
        match Done(f) {
          case Some(false) =>
            PopFront();
            return Some(f);
          case Some(true) => Drop(false);
          case None => Drop(true);
        }
        ShowsReceivers();
      }
      SkipUnfold(abs);
      return None;
    }

    lemma {:induction false} ShowsReceivers()
      requires Shows(abs)
      ensures pendingRecv == abs.pending && futures == abs.futures && raising == abs.raising
    {
    }

    method PopFront()
      requires Shows(abs) && pendingRecv != []
      modifies this`pendingRecv, this`abs
      ensures Shows(abs) && abs == old(abs).(pending := old(abs).pending[1..])
    {
      pendingRecv := pendingRecv[1..];
      abs := abs.(pending := pendingRecv);
    }

    /** The front receiver leaves the queue, into quarantine if it could not be probed. */
    method Drop(quarantine: bool)
      requires Shows(abs) && pendingRecv != []
      modifies this`pendingRecv, this`unprobeableRecv, this`abs
      ensures Shows(abs) && abs == Pop(old(abs), quarantine)
    {
      var f := pendingRecv[0];
      pendingRecv := pendingRecv[1..];
      assert unprobeableRecv + [] == unprobeableRecv;
      if quarantine { unprobeableRecv := unprobeableRecv + [f]; }
      abs := Pop(abs, quarantine);
    }

    method Queue(message: bytes)
      requires Shows(abs)
      modifies this`backlog, this`abs
      ensures Shows(abs) && abs == Enqueue(old(abs), message)
    {
      backlog := backlog + [message];
      abs := Enqueue(abs, message);
    }

    /** Settle a receiver that has left the queue with its message. */
    method SetResult(f: Fut, message: bytes)
      requires Shows(abs) && f < |futures| && f < |abs.kind| && abs.kind[f].Receive?
      modifies this`futures, this`abs
      ensures Shows(abs)
      ensures abs == old(abs).(futures := old(abs).futures[f := Result(Some(message))],
                               arrived := old(abs).arrived + [message],
                               handed := old(abs).handed + [Handout(old(abs).kind[f].call, message)])
    {
      futures := futures[f := Result(Some(message))];
      abs := abs.(futures := futures, arrived := abs.arrived + [message],
                  handed := abs.handed + [Handout(abs.kind[f].call, message)]);
    }

    /** An error ends the call: the receiver and all acknowledgments in hand are dropped. */
    method GiveUp(ghost f: Fut)
      requires Shows(abs) && forall g :: g in abs.acking ==> g < |abs.futures|
      modifies this`acks, this`abs
      ensures Shows(abs) && abs == old(abs).(acking := [], stranded := old(abs).stranded + {f} + Due(old(abs)))
    {
      acks := [];
      abs := abs.(acking := [], stranded := abs.stranded + {f} + Due(abs));
    }

    /** Deliver to the first live receiver, else queue. The receiver is looked at once more
        before it gets its result; if that look raises, the error ends the call, and with it
        a scan in progress. */
    method DeliverMessage(message: bytes, raises: bool) returns (ok: bool)
      requires Valid()
      modifies this
      ensures Valid() && View() == Deliver(old(View()), message, raises)
      ensures !ok <==> Loses(old(View()), Arrive(message, raises))
    {
      ghost var s := View();
      hide Sound, SkipToLive, Deliver, FirstLive, Shows;
      DeliverOk(s, message, raises);
      DeliverCases(s, message, raises);
      SkipFindsFirstLive(s);
      var r := TakeLiveReceiver();
      ok := true;
      if r.None? {
        Queue(message);
      } else if raises {
        GiveUp(r.value);
        ok := false;
      } else {
        SetResult(r.value, message);
      }
    }

    // ---- recv() ----

    /** Park a receiver, first sweeping out settled ones if the queue has grown to the threshold. */
    method ParkReceiver(future: Fut) returns (probes: nat)
      requires Below(pendingRecv, |futures|)
      modifies this`pendingRecv, this`unprobeableRecv, this`recvSweepAt
      ensures var swept := |old(pendingRecv)| >= old(recvSweepAt);
              var live := if swept then Kept(futures, raising, old(pendingRecv)) else old(pendingRecv);
              && pendingRecv == live + [future]
              && unprobeableRecv == old(unprobeableRecv) + (if swept then Raised(raising, old(pendingRecv)) else [])
              && recvSweepAt == (if swept then Max(RECV_SWEEP_MIN, 2 * |live|) else old(recvSweepAt))
              && probes == if swept then |old(pendingRecv)| else 0
    {
      probes := 0;
      assert unprobeableRecv + [] == unprobeableRecv;
      if |pendingRecv| >= recvSweepAt {
        var parked, live := pendingRecv, [];
        pendingRecv := [];
        var i := 0;
        while i < |parked|
          invariant i <= |parked| && probes == i && live == Kept(futures, raising, parked[..i])
          invariant unprobeableRecv == old(unprobeableRecv) + Raised(raising, parked[..i])
          modifies this`unprobeableRecv
        {
          assert parked[..i + 1][..i] == parked[..i];
          probes := probes + 1;
          match Done(parked[i]) {
            case Some(false) => live := live + [parked[i]];
            case Some(true) =>
            case None => unprobeableRecv := unprobeableRecv + [parked[i]];
          }
          i := i + 1;
        }
        assert parked[..i] == parked;
        pendingRecv := live;
        recvSweepAt := Max(RECV_SWEEP_MIN, 2 * |pendingRecv|);
      }
      pendingRecv := pendingRecv + [future];
    }

    method TakeBacklog() returns (message: bytes)
      requires Shows(abs) && backlog != []
      modifies this`backlog, this`abs
      ensures Shows(abs) && message == old(backlog)[0]
      ensures abs == old(abs).(backlog := old(abs).backlog[1..], answers := old(abs).answers + [Ready(message)],
                               handed := old(abs).handed + [Handout(|old(abs).answers|, message)])
    {
      message := backlog[0];
      backlog := backlog[1..];
      abs := abs.(backlog := backlog, answers := abs.answers + [Ready(message)],
                  handed := abs.handed + [Handout(|abs.answers|, message)]);
    }

    ghost method Refuse(answer: Received)
      requires Shows(abs)
      modifies this`abs
      ensures Shows(abs) && abs == old(abs).(answers := old(abs).answers + [answer])
    {
      abs := abs.(answers := abs.answers + [answer]);
    }

    /** recv(): a queued message, an error on a closed connection, or a parked Future;
        `probes` counts the done() calls it made. */
    method RecvCall() returns (r: Received, probes: nat)
      requires Valid()
      modifies this
      ensures Valid() && (View(), r) == Recv(old(View()))
      ensures View().probes == old(View()).probes + probes
    {
      ghost var s := View();
      hide Sound;
      RecvOk(s);
      assert backlog == s.backlog && closed == s.closed && loopBound == s.bound;
      hide Shows;
      probes := 0;
      if backlog != [] {
        var m := TakeBacklog();
        r := Ready(m);
      } else if closed {
        Refuse(ConnectionClosed);
        r := ConnectionClosed;
      } else if !loopBound {
        Refuse(NotBound);
        r := NotBound;
      } else {
        r, probes := RecvSlow();
      }
    }

    /** No message is queued: create a Future and park it. */
    method RecvSlow() returns (r: Received, probes: nat)
      requires Valid() && backlog == [] && !closed && loopBound
      modifies this
      ensures Shows(abs) && (View(), r) == Recv(old(View()))
      ensures View().probes == old(View()).probes + probes
    {
      ghost var s := View();
      hide Sound, Kept, Raised, Waiting, Recv;
      RecvParks(s);
      KeptSame(s.futures, [Pending], s.raising, s.pending);
      var future := |futures|;
      futures := futures + [Pending];
      probes := ParkReceiver(future);
      abs := Recv(s).0;
      r := Parked(future);
    }

    // ---- Ping probes ----

    method DropEntry(payload: bytes)
      requires Shows(abs)
      modifies this`pendingPings, this`abs
      ensures Shows(abs) && abs == Forget(old(abs), payload)
    {
      pendingPings := pendingPings - {payload};
      abs := Forget(abs, payload);
    }

    method CreateCancelled(payload: bytes)
      requires Shows(abs)
      modifies this`futures, this`abs
      ensures Shows(abs) && abs == Abandon(old(abs), payload)
    {
      futures := futures + [Cancelled];
      abs := Abandon(abs, payload);
    }

    method RegisterProbe(payload: bytes) returns (future: Fut)
      requires Shows(abs)
      modifies this`futures, this`pendingPings, this`abs
      ensures Shows(abs) && abs == Register(old(abs), payload) && future == |old(abs).futures|
    {
      future := |futures|;
      futures := futures + [Pending];
      pendingPings := pendingPings[payload := future];
      abs := Register(abs, payload);
    }

    /** ping_waiter(); `writeOk` is whether the transport accepted the Ping frame. */
    method PingCall(payload: bytes, writeOk: bool) returns (r: Probed)
      requires Valid() && acks == []
      modifies this
      ensures Valid() && (View(), r) == PingWaiter(old(View()), payload, writeOk)
    {
      ghost var s := View();
      hide Sound;
      PingWaiterOk(s, payload, writeOk);
      RegistryKinds(s);
      if |payload| > 125 { return TooLong; }
      if closed { return Gone; }
      if !loopBound { return Unbound; }
      if payload in pendingPings {
        match Done(pendingPings[payload]) {
          case None => return Unprobeable;
          case Some(false) => return Duplicate;
          case Some(true) =>
        }
      }
      r := StartProbe(payload, writeOk);
    }

    /** No unsettled probe uses the payload: create one, register it and write its Ping. */
    method StartProbe(payload: bytes, writeOk: bool) returns (r: Probed)
      requires Valid() && acks == [] && |payload| <= 125 && !closed && loopBound
      requires payload in pendingPings ==>
                 var f := pendingPings[payload]; f < |futures| && f !in raising && !futures[f].Pending?
      modifies this
      ensures Valid() && (View(), r) == PingWaiter(old(View()), payload, writeOk)
    {
      ghost var s := View();
      hide Sound;
      PingWaiterOk(s, payload, writeOk);
      assert hasTransport == s.transport && acks == s.acking;
      ForgetOk(s, payload);
      AbandonOk(Forget(s, payload), payload);
      assert PingWaiter(s, payload, writeOk) ==
             if !s.transport then (Abandon(Forget(s, payload), payload), Gone)
             else if writeOk then (Register(Forget(s, payload), payload), Probing(|s.futures|))
             else (Teardown(Abandon(Forget(s, payload), payload)), WriteFailed);
      hide Shows, PingWaiter, Teardown;
      DropEntry(payload);
      if !hasTransport {
        CreateCancelled(payload);
        return Gone;
      }
      if writeOk {
        var future := RegisterProbe(payload);
        return Probing(future);
      }
      CreateCancelled(payload);
      Close();
      r := WriteFailed;
    }

    /** A Pong takes the probe registered for its payload out of the registry. */
    method TakePing(payload: bytes)
      requires Valid()
      modifies this
      ensures Valid() && View() == Delivery.HoldPong(old(View()), payload)
    {
      hide Sound;
      HoldPongOk(abs, payload);
      var taken := if payload in pendingPings then [pendingPings[payload]] else [];
      pendingPings := pendingPings - {payload};
      acks := acks + taken;
      abs := Delivery.HoldPong(abs, payload);
    }

    /** Settle one acknowledged probe; if its done() raises, it gets that exception. */
    method AcknowledgeOne(f: Fut)
      requires f < |futures|
      modifies this`futures
      ensures futures == SettleOne(old(futures), f, if f in raising then Failed else Result(None))
    {
      match Done(f)
      case None => if futures[f].Pending? { futures := futures[f := Failed]; }
      case Some(false) => futures := futures[f := Result(None)];
      case Some(true) =>
    }

    /** Acknowledge every Pong in hand, in order. */
    method AcknowledgeAll()
      requires Valid()
      modifies this
      ensures Valid() && View() == Delivery.Acknowledge(old(View()))
    {
      ghost var s := View();
      hide Sound;
      AcknowledgeOk(s);
      AckingBelow(s);
      var taken := acks;
      acks := [];
      SettleTaken(taken);
      abs := Delivery.Acknowledge(s);
      assert futures == Delivery.Acknowledge(s).futures;
    }

    method SettleTaken(taken: seq<Fut>)
      requires forall f :: f in taken ==> f < |futures|
      modifies this`futures
      ensures |futures| == |old(futures)|
      ensures forall f :: 0 <= f < |futures| ==>
                futures[f] == if old(futures)[f].Pending? && f in taken then
                                (if f in raising then Failed else Result(None))
                              else old(futures)[f]
    {
      for i := 0 to |taken|
        invariant |futures| == |old(futures)|
        invariant forall f :: 0 <= f < |futures| ==>
                    futures[f] == if old(futures)[f].Pending? && f in taken[..i] then
                                    (if f in raising then Failed else Result(None))
                                  else old(futures)[f]
      {
        assert taken[i] in taken;
        AcknowledgeOne(taken[i]);
        assert taken[..i + 1] == taken[..i] + [taken[i]];
      }
      assert taken[..|taken|] == taken;
    }

    /** A Pong outside a scan: take its probe and acknowledge it at once. */
    method PongArrived(payload: bytes)
      requires Valid() && acks == []
      modifies this
      ensures Valid() && View() == PongArrives(old(View()), payload)
    {
      hide Sound, Delivery.HoldPong, Delivery.Acknowledge;
      TakePing(payload);
      AcknowledgeAll();
    }

    /** Done-callback of a settled probe, possibly long after its payload was reused. */
    method CleanupCallback(f: Fut, payload: bytes)
      requires Valid() && f < |futures| && !futures[f].Pending? && View().kind[f].Ping?
        && View().kind[f].payload == payload
      modifies this`pendingPings, this`abs
      ensures Valid() && View() == Cleanup(old(View()), f)
      ensures forall p :: p in old(pendingPings) && old(pendingPings)[p] != f ==>
                p in pendingPings && pendingPings[p] == old(pendingPings)[p]
    {
      ghost var s := View();
      CleanupOk(s, f);
      assert pendingPings == s.pings;
      hide Sound, Shows;
      if payload in pendingPings && pendingPings[payload] == f { DropEntry(payload); }
      assert Shows(abs) && abs == Cleanup(s, f);
      SamePings();
    }

    lemma {:induction false} SamePings()
      requires Shows(abs)
      ensures pendingPings == abs.pings
    {
    }

    // ---- handshake and teardown ----

    /** Take the handshake Future and settle it unless it is done. A raising probe ends the
        attempt, and the Future is gone. */
    method LetGoHandshake(outcome: Outcome) returns (ok: bool)
      requires Valid() && (outcome == Result(None) || outcome == Failed)
      modifies this
      ensures Valid() && View() == LetGo(old(View()), outcome)
      ensures !ok <==> old(handshakeFut).Some? && old(handshakeFut).value in old(raising)
    {
      ok := true;
      ghost var s := View();
      hide Sound;
      LetGoOk(s, outcome);
      RegistryKinds(s);
      if handshakeFut.Some? {
        var f := handshakeFut.value;
        handshakeFut := None;
        match Done(f) {
          case None => ok := false;
          case Some(false) => futures := futures[f := outcome];
          case Some(true) =>
        }
      }
      abs := LetGo(s, outcome);
    }

    /** The handshake succeeded; a failure to set the result is ignored. */
    method HandshakeAccepted()
      requires Valid()
      modifies this
      ensures Valid() && View() == AcceptHandshake(old(View()))
    {
      var _ := LetGoHandshake(Result(None));
    }

    /** The TLS transport failed; a raising probe makes it return before it aborts. */
    method TlsFailed() returns (ok: bool)
      requires Valid()
      modifies this
      ensures Valid() && View() == FailTls(old(View()))
      ensures !ok <==> old(handshakeFut).Some? && old(handshakeFut).value in old(raising)
    {
      ok := LetGoHandshake(Failed);
    }

    method HandshakeRejected()
      requires Valid()
      modifies this
      ensures Valid() && View() == RejectHandshake(old(View()))
    {
      ghost var s := View();
      hide Sound;
      RejectHandshakeOk(s);
      RegistryKinds(s);
      abs := RejectHandshake(s);
      if handshakeFut.Some? {
        var f := handshakeFut.value;
        handshakeFut := None;
        SetFutureException(f);
      }
    }

    /** Fail a Future unless it reports done; a raising probe does not protect it. */
    method SetFutureException(f: Fut)
      requires f < |futures|
      modifies this`futures
      ensures futures == SettleOne(old(futures), f, Failed)
    {
      if Done(f) != Some(true) {
        if futures[f].Pending? { futures := futures[f := Failed]; }
      }
    }

    /** Empty every registry into one list. */
    method TakePending() returns (pending: seq<Fut>)
      modifies this`pendingRecv, this`unprobeableRecv, this`handshakeFut, this`pendingPings
      ensures forall f :: f in pending <==>
                || f in old(pendingRecv) || f in old(unprobeableRecv)
                || old(handshakeFut) == Some(f) || f in old(pendingPings).Values
      ensures pendingRecv == [] && unprobeableRecv == [] && handshakeFut.None? && pendingPings == map[]
    {
      pending := pendingRecv + unprobeableRecv;
      pendingRecv, unprobeableRecv := [], [];
      if handshakeFut.Some? { pending := pending + [handshakeFut.value]; }
      handshakeFut := None;
      var pings := pendingPings;
      pendingPings := map[];
      ghost var early := pending;
      while pings != map[]
        invariant pings.Keys <= old(pendingPings).Keys && forall p :: p in pings ==> pings[p] == old(pendingPings)[p]
        invariant forall f :: f in pending <==>
                    f in early || exists p :: p in old(pendingPings) && p !in pings && old(pendingPings)[p] == f
        decreases |pings|
      {
        var p :| p in pings;
        pending := pending + [pings[p]];
        pings := pings - {p};
      }
    }

    method FailPending(pending: seq<Fut>)
      requires Below(pending, |futures|)
      modifies this`futures
      ensures |futures| == |old(futures)|
      ensures forall f :: 0 <= f < |futures| ==>
                futures[f] == if old(futures)[f].Pending? && f in pending then Failed else old(futures)[f]
    {
      for i := 0 to |pending|
        invariant |futures| == |old(futures)|
        invariant forall f :: 0 <= f < |futures| ==>
                    futures[f] == if old(futures)[f].Pending? && f in pending[..i] then Failed else old(futures)[f]
      {
        SetFutureException(pending[i]);
        assert pending[..i + 1] == pending[..i] + [pending[i]];
      }
      assert pending[..|pending|] == pending;
    }

    /** Anyone may cancel a Future. */
    method Cancel(f: Fut)
      requires Valid() && f < |futures|
      modifies this`futures, this`abs
      ensures Valid() && View() == Settle(old(View()), f, Cancelled)
    {
      hide Sound;
      SettleOk(abs, f, Cancelled);
      if futures[f].Pending? { futures := futures[f := Cancelled]; }
      abs := Settle(abs, f, Cancelled);
    }

    /** Futures start or stop raising when probed. */
    method SetRaising(raising: set<Fut>)
      requires Valid()
      modifies this`raising, this`abs
      ensures Valid() && View() == old(View()).(raising := raising)
    {
      hide Sound;
      ProbesOk(abs, raising);
      this.raising := raising;
      abs := abs.(raising := raising);
    }

    /** Local close, peer close, protocol error and connection loss all end here. */
    method Close()
      requires Valid() && acks == []
      modifies this
      ensures Valid() && View() == Teardown(old(View()))
    {
      ghost var s := View();
      hide Sound;
      TeardownOk(s);
      RegisteredBelow(s);
      closed := true;
      loopBound, hasTransport := false, false;
      var pending := TakePending();
      forall i | 0 <= i < |pending| ensures pending[i] < |futures| {
        assert pending[i] in pending;
        assert IsRegistered(s, pending[i]);
      }
      FailPending(pending);
      abs := Teardown(s);
      FailedRegistered(s, pending, futures);
    }
  }

  lemma {:induction false} RegistryKinds(s: Box)
    requires Sound(s)
    ensures |s.kind| == |s.futures|
    ensures forall p :: p in s.pings ==> s.pings[p] < |s.futures|
    ensures s.handshake.Some? ==> s.handshake.value < |s.futures|
  {
    hide DeliveryOk, SweepOk, Accounted, Apart, HistoryOk;
  }

  // ---- whole runs ----

  /** One call, arrival, cancellation or change of the Futures' probes. */
  method Perform(box: State, op: Op) returns (probes: nat)
    requires box.Valid() && Enabled(box.View(), op)
    modifies box
    ensures box.Valid() && box.View() == Next(old(box.View()), op)
    ensures op.CallRecv? ==> box.View().probes == old(box.View()).probes + probes
    ensures !op.CallRecv? ==> probes == 0
  {
    hide Sound, Deliver, Recv, PingWaiter, PongArrives, Settle, Cleanup, LetGo;
    hide AcceptHandshake, RejectHandshake, FailTls, Teardown, Delivery.HoldPong, Delivery.Acknowledge;
    probes := 0;
    match op
    case Arrive(m, raises) => var _ := box.DeliverMessage(m, raises);
    case CallRecv => var _, n := box.RecvCall(); probes := n;
    case CallPing(p, writeOk) => var _ := box.PingCall(p, writeOk);
    case ArrivePong(p) => box.PongArrived(p);
    case HoldPong(p) => box.TakePing(p);
    case Acknowledge => box.AcknowledgeAll();
    case CancelFuture(f) => box.Cancel(f);
    case ChangeProbes(raising) => box.SetRaising(raising);
    case RunCleanup(f, p) => box.CleanupCallback(f, p);
    case HandshakeAccepted => box.HandshakeAccepted();
    case HandshakeRejected => box.HandshakeRejected();
    case TlsFailed => var _ := box.TlsFailed();
    case CloseConnection => box.Close();
  }

  /** Every run of the client's own queues is a run of the abstract state machine, so
      conservation, fairness, the sweep bounds, Ping correlation and teardown hold of it;
      `probes` are the done() calls its sweeps made. */
  method Drive(ops: seq<Op>) returns (box: State, probes: nat)
    requires forall k :: 0 <= k < |ops| ==> Enabled(After(ops[..k]), ops[k])
    ensures fresh(box) && box.Valid() && box.View() == After(ops)
    ensures probes == SweepProbes(ops)
  {
    hide Sound, Next, ProbesBy;
    box := new State();
    probes := 0;
    for i := 0 to |ops|
      invariant fresh(box) && box.Valid() && box.View() == After(ops[..i]) && probes == box.View().probes
    {
      NextCost(box.View(), ops[i]);
      QuietProbes(box.View(), ops[i]);
      var n := Perform(box, ops[i]);
      probes := probes + n;
      assert ops[..i + 1][..i] == ops[..i];
      AfterSnoc(ops[..i + 1]);
    }
    assert ops[..|ops|] == ops;
    Logs(ops);
  }

  lemma {:induction false} QuietProbes(s: Box, op: Op)
    ensures !op.CallRecv? ==> ProbesBy(s, op) == 0
  {
  }
}
