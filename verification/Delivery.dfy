/**
 Delivery of received messages to recv() callers, Ping probes, and teardown. A
 Future is a number; anyone may cancel it at any time, its done() probe may start
 raising, and may raise on the second look the code takes when it delivers.
 */
module Delivery {
  import opened Common
  import opened DeliveryOrder

  // ---- registries ----

  /** Future `f` is held for later settlement, or it is stranded. */
  ghost predicate Held(
    f: Fut, k: Kind, pending: seq<Fut>, quarantined: seq<Fut>, pings: map<bytes, Fut>, handshake: Option<Fut>,
    acking: seq<Fut>, stranded: set<Fut>)
  {
    || f in stranded
    || match k
       case Receive(_) => f in pending || f in quarantined
       case Ping(p, _) => (p in pings && pings[p] == f) || f in acking
       case Handshake => handshake == Some(f)
  }

  /** Every unsettled Future is held somewhere. */
  ghost predicate Accounted(
    futures: seq<Outcome>, kind: seq<Kind>, pending: seq<Fut>, quarantined: seq<Fut>, pings: map<bytes, Fut>,
    handshake: Option<Fut>, acking: seq<Fut>, stranded: set<Fut>)
    requires |kind| == |futures|
  {
    forall f :: 0 <= f < |futures| && futures[f].Pending? ==>
      Held(f, kind[f], pending, quarantined, pings, handshake, acking, stranded)
  }

  /** Registry entries are Futures of the right kind. */
  ghost predicate WellKinded(
    kind: seq<Kind>, quarantined: seq<Fut>, pings: map<bytes, Fut>, handshake: Option<Fut>, acking: seq<Fut>,
    stranded: set<Fut>)
  {
    && (forall f :: f in stranded ==> f < |kind|)
    && (forall f :: f in quarantined ==> f < |kind| && kind[f].Receive?)
    && (forall f :: f in acking ==> f < |kind| && kind[f].Ping?)
    && (forall p :: p in pings ==> pings[p] < |kind| && kind[pings[p]].Ping? && kind[pings[p]].payload == p)
    && (handshake.Some? ==> handshake.value < |kind| && kind[handshake.value].Handshake?)
  }

  /** The registries do not overlap, and none of them reaches a stranded Future. */
  ghost predicate Apart(
    pending: seq<Fut>, quarantined: seq<Fut>, pings: map<bytes, Fut>, handshake: Option<Fut>, acking: seq<Fut>,
    stranded: set<Fut>)
  {
    && (forall f :: f in quarantined ==> f !in pending)
    && (forall f :: f in acking ==> f !in pings.Values)
    && (forall f :: f in stranded ==>
          f !in pending && f !in quarantined && f !in acking && f !in pings.Values && handshake != Some(f))
  }

  /** A probe that succeeded, or is about to, was answered: `answer` gives the Pong that
      settles it, with its payload, seen after registration, and settling no other. */
  ghost predicate Correlated(
    futures: seq<Outcome>, kind: seq<Kind>, pongs: seq<bytes>, answer: map<Fut, nat>, acking: seq<Fut>)
    requires |kind| == |futures|
  {
    && (forall f :: 0 <= f < |futures| && kind[f].Ping? && (futures[f].Result? || f in acking) ==>
          f in answer && kind[f].since <= answer[f] < |pongs| && pongs[answer[f]] == kind[f].payload)
    && (forall f :: 0 <= f < |futures| && kind[f].Ping? ==> kind[f].since <= |pongs|)
    && (forall f :: f in answer ==> answer[f] < |pongs|)
    && (forall f, g :: f in answer && g in answer && answer[f] == answer[g] ==> f == g)
  }

  lemma {:induction false} FreshOrder()
    ensures Fair([], [Handshake], [], 0) && Messages([]) + [] == []
  {
  }

  lemma {:induction false} FreshRegistries()
    ensures Accounted([Pending], [Handshake], [], [], map[], Some(0), [], {})
    ensures WellKinded([Handshake], [], map[], Some(0), [], {}) && Apart([], [], map[], Some(0), [], {})
    ensures Correlated([Pending], [Handshake], [], map[], [])
  {
  }

  // ---- state ----

  /** The queues and registries, the event loop's Futures with the set whose probe
      raises, and what has happened so far. `acking` holds the probes whose Pong a scan
      in progress has seen; `stranded` the Futures let go unsettled. */
  datatype Box = Box(
    pending: seq<Fut>,
    quarantined: seq<Fut>,
    sweepAt: nat,
    backlog: seq<bytes>,
    pings: map<bytes, Fut>,
    handshake: Option<Fut>,
    acking: seq<Fut>,
    closed: bool,
    bound: bool,
    transport: bool,
    futures: seq<Outcome>,
    raising: set<Fut>,
    stranded: set<Fut>,
    kind: seq<Kind>,
    answers: seq<Received>,
    arrived: seq<bytes>,
    handed: seq<Handout>,
    parks: nat,
    probes: nat,
    base: nat,
    peak: nat,
    pongs: seq<bytes>,
    answer: map<Fut, nat>)

  /** Messages taken over are those handed out, in call order, then the backlog. */
  ghost predicate DeliveryOk(s: Box) {
    && Fair(s.handed, s.kind, s.pending, |s.answers|)
    && Messages(s.handed) + s.backlog == s.arrived
    && (s.backlog != [] ==> s.pending == [])
  }

  ghost predicate SweepOk(s: Box) {
    && Below(s.pending, |s.futures|)
    && Amortized(|s.pending|, s.sweepAt, s.parks, s.probes, s.base, s.peak, Waiting(s.futures, s.pending))
  }

  ghost predicate RegistryOk(s: Box) {
    && |s.kind| == |s.futures|
    && Accounted(s.futures, s.kind, s.pending, s.quarantined, s.pings, s.handshake, s.acking, s.stranded)
    && WellKinded(s.kind, s.quarantined, s.pings, s.handshake, s.acking, s.stranded)
    && Apart(s.pending, s.quarantined, s.pings, s.handshake, s.acking, s.stranded)
  }

  /** What the history says about Futures is true of them. */
  ghost predicate HistoryOk(s: Box) {
    && |s.kind| == |s.futures|
    && Correlated(s.futures, s.kind, s.pongs, s.answer, s.acking)
    && Told(s.futures, s.kind, s.handed, s.answers)
  }

  ghost predicate Emptied(s: Box) {
    && s.pending == [] && s.quarantined == [] && s.pings == map[] && s.handshake.None? && s.acking == []
    && !s.bound && !s.transport
  }

  ghost predicate Sound(s: Box) {
    DeliveryOk(s) && SweepOk(s) && RegistryOk(s) && HistoryOk(s) && (s.closed ==> Emptied(s))
  }

  ghost function Init(): Box {
    Box([], [], RECV_SWEEP_MIN, [], map[], Some(0), [], false, true, true, [Pending], {}, {}, [Handshake],
        [], [], [], 0, 0, 0, 0, [], map[])
  }

  lemma {:induction false} InitOk()
    ensures Sound(Init())
  {
    FreshOrder();
    FreshRegistries();
    ToldFresh();
    hide Fair, Messages, Accounted, WellKinded, Apart, Correlated, Told;
  }

  /** Registries may change freely as far as order and counts are concerned. */
  lemma {:induction false} QueuesUnchanged(s: Box, t: Box)
    requires DeliveryOk(s) && SweepOk(s)
    requires t == s.(quarantined := t.quarantined, pings := t.pings, handshake := t.handshake, acking := t.acking,
                     stranded := t.stranded, raising := t.raising, pongs := t.pongs, answer := t.answer,
                     futures := t.futures)
    requires |s.futures| <= |t.futures|
    requires forall f :: 0 <= f < |s.futures| && t.futures[f].Pending? ==> s.futures[f].Pending?
    ensures DeliveryOk(t) && SweepOk(t)
  {
    WaitingShrinks(s.futures, t.futures, s.pending, 0);
    assert s.pending[0..] == s.pending;
    hide Fair, Messages, Waiting;
  }

  // ---- steps ----

  /** Settle one Future unless it is done. */
  ghost function SettleOne(futures: seq<Outcome>, f: Fut, outcome: Outcome): seq<Outcome>
    requires f < |futures|
  {
    if futures[f].Pending? then futures[f := outcome] else futures
  }

  /** Settle a Future without a result. */
  ghost function Settle(s: Box, f: Fut, outcome: Outcome): Box
    requires f < |s.futures|
  {
    s.(futures := SettleOne(s.futures, f, outcome))
  }

  /** Only unsettled Futures change, and no receiver or probe succeeds. */
  ghost predicate SettledQuietly(kind: seq<Kind>, futures: seq<Outcome>, futures': seq<Outcome>) {
    && |kind| == |futures| == |futures'|
    && forall f :: 0 <= f < |futures| && futures'[f] != futures[f] ==>
         futures[f].Pending? && !futures'[f].Pending? && (futures'[f].Result? ==> kind[f].Handshake?)
  }

  lemma {:induction false} QuietHistory(s: Box, t: Box)
    requires HistoryOk(s) && SettledQuietly(s.kind, s.futures, t.futures)
    requires t == s.(quarantined := t.quarantined, pings := t.pings, handshake := t.handshake, pending := t.pending,
                     stranded := t.stranded, raising := t.raising, futures := t.futures, acking := t.acking,
                     sweepAt := t.sweepAt, probes := t.probes, base := t.base,
                     closed := t.closed, bound := t.bound, transport := t.transport)
    requires forall f :: f in t.acking ==> f in s.acking
    ensures HistoryOk(t)
  {
    ToldUnchanged(s.futures, t.futures, s.kind, s.handed, s.answers);
    hide Told;
  }

  lemma {:induction false} QuietAccounted(s: Box, t: Box)
    requires RegistryOk(s) && SettledQuietly(s.kind, s.futures, t.futures) && t == s.(futures := t.futures)
    ensures RegistryOk(t)
  {
    hide WellKinded, Apart, Held;
  }

  lemma {:induction false} SettleOk(s: Box, f: Fut, outcome: Outcome)
    requires Sound(s) && f < |s.futures| && (outcome.Cancelled? || outcome.Failed?)
    ensures Sound(Settle(s, f, outcome))
  {
    var t := Settle(s, f, outcome);
    hide DeliveryOk, SweepOk, Accounted, WellKinded, Apart, Correlated, Told;
    QueuesUnchanged(s, t);
    QuietAccounted(s, t);
    QuietHistory(s, t);
  }

  lemma {:induction false} ProbesOk(s: Box, raising: set<Fut>)
    requires Sound(s)
    ensures Sound(s.(raising := raising))
  {
    QueuesUnchanged(s, s.(raising := raising));
    hide DeliveryOk, SweepOk, Accounted, WellKinded, Apart, Correlated, Told;
  }

  /** The front receiver leaves the queue, into quarantine if it cannot be probed. */
  ghost function Pop(s: Box, keep: bool): Box
    requires s.pending != []
  {
    s.(pending := s.pending[1..], quarantined := s.quarantined + if keep then [s.pending[0]] else [])
  }

  lemma {:induction false} PopOk(s: Box, keep: bool)
    requires Sound(s) && s.pending != [] && s.pending[0] < |s.futures|
    requires keep || !s.futures[s.pending[0]].Pending?
    ensures Sound(Pop(s, keep))
  {
    assert DeliveryOk(Pop(s, keep)) && SweepOk(Pop(s, keep)) by { PopQueues(s, keep); }
    PopRegistries(s, keep);
    QuietHistory(s, Pop(s, keep));
    hide DeliveryOk, SweepOk, RegistryOk, HistoryOk;
  }

  lemma {:induction false} PopQueues(s: Box, keep: bool)
    requires DeliveryOk(s) && SweepOk(s) && s.pending != []
    ensures DeliveryOk(Pop(s, keep)) && SweepOk(Pop(s, keep))
  {
    WaitingShrinks(s.futures, s.futures, s.pending, 1);
    FairPop(s.handed, s.kind, s.pending, |s.answers|);
    hide Fair, Messages, Waiting;
  }

  lemma {:induction false} PopRegistries(s: Box, keep: bool)
    requires Sound(s) && s.pending != [] && s.pending[0] < |s.futures|
    requires keep || !s.futures[s.pending[0]].Pending?
    ensures RegistryOk(Pop(s, keep))
  {
    var q := s.pending;
    FrontIsAlone(s);
    assert q == [q[0]] + q[1..];
    hide DeliveryOk, SweepOk, HistoryOk;
  }

  /** The front receiver is in no other place. */
  lemma {:induction false} FrontIsAlone(s: Box)
    requires Sound(s) && s.pending != []
    ensures s.pending[0] < |s.kind| && s.kind[s.pending[0]].Receive?
    ensures s.pending[0] !in s.pending[1..] && s.pending[0] !in s.quarantined && s.pending[0] !in s.stranded
    ensures s.pending[0] !in s.pings.Values && s.pending[0] !in s.acking && s.handshake != Some(s.pending[0])
  {
    assert AllReceivers(s.kind, s.pending);
    forall i | 1 <= i < |s.pending| ensures s.pending[i] != s.pending[0] {
      FairDistinct(s.handed, s.kind, s.pending, |s.answers|, 0, i);
    }
    hide DeliveryOk, SweepOk, HistoryOk, Accounted;
  }

  /** Drop settled receivers and quarantine unprobeable ones until a live one is in front. */
  ghost function SkipToLive(s: Box): Box
    requires Below(s.pending, |s.futures|)
    decreases |s.pending|
  {
    if s.pending == [] then s
    else if s.pending[0] in s.raising then SkipToLive(Pop(s, true))
    else if s.futures[s.pending[0]].Pending? then s
    else SkipToLive(Pop(s, false))
  }

  lemma {:induction false} SkipUnfold(s: Box)
    requires Below(s.pending, |s.futures|)
    ensures SkipToLive(s) ==
            if s.pending == [] then s
            else if s.pending[0] in s.raising then SkipToLive(Pop(s, true))
            else if s.futures[s.pending[0]].Pending? then s
            else SkipToLive(Pop(s, false))
    ensures forall keep | s.pending != [] ::
              Pop(s, keep).pending == s.pending[1..] && Pop(s, keep).futures == s.futures
  {
  }

  lemma {:induction false} SkipToLiveOk(s: Box)
    requires Sound(s)
    ensures var t := SkipToLive(s);
            && Sound(t)
            && t == s.(pending := t.pending, quarantined := t.quarantined)
            && (t.pending != [] ==>
                  t.pending[0] < |t.futures| && t.pending[0] !in t.raising && t.futures[t.pending[0]].Pending?)
    decreases |s.pending|
  {
    assert Below(s.pending, |s.futures|);
    hide DeliveryOk, SweepOk, RegistryOk, HistoryOk;
    if s.pending != [] {
      var f := s.pending[0];
      if f in s.raising {
        PopOk(s, true);
        SkipToLiveOk(Pop(s, true));
      } else if !s.futures[f].Pending? {
        PopOk(s, false);
        SkipToLiveOk(Pop(s, false));
      }
    }
  }

  /** The first receiver in the queue whose probe answers "not done". */
  ghost function FirstLive(futures: seq<Outcome>, raising: set<Fut>, q: seq<Fut>): Option<Fut>
    requires Below(q, |futures|)
  {
    if q == [] then None
    else if q[0] !in raising && futures[q[0]].Pending? then Some(q[0])
    else FirstLive(futures, raising, q[1..])
  }

  lemma {:induction false} SkipFindsFirstLive(s: Box)
    requires Below(s.pending, |s.futures|)
    ensures var q := SkipToLive(s).pending;
            FirstLive(s.futures, s.raising, s.pending) == if q == [] then None else Some(q[0])
    decreases |s.pending|
  {
    if s.pending != [] {
      var f := s.pending[0];
      if f in s.raising {
        SkipFindsFirstLive(Pop(s, true));
      } else if !s.futures[f].Pending? {
        SkipFindsFirstLive(Pop(s, false));
      }
    }
  }

  ghost function HandOut(s: Box, message: bytes): Box
    requires s.pending != [] && s.pending[0] < |s.futures| == |s.kind| && s.kind[s.pending[0]].Receive?
  {
    var f := s.pending[0];
    s.(pending := s.pending[1..],
       futures := s.futures[f := Result(Some(message))],
       arrived := s.arrived + [message],
       handed := s.handed + [Handout(s.kind[f].call, message)])
  }

  lemma {:induction false} HandOutOk(s: Box, message: bytes)
    requires Sound(s) && s.pending != [] && s.pending[0] < |s.futures| && s.futures[s.pending[0]].Pending?
    ensures s.kind[s.pending[0]].Receive? && Sound(HandOut(s, message))
  {
    FrontIsAlone(s);
    HandOutQueues(s, message);
    HandOutRegistries(s, message);
    HandOutHistory(s, message);
    hide DeliveryOk, SweepOk, RegistryOk, HistoryOk;
  }

  lemma {:induction false} HandOutQueues(s: Box, message: bytes)
    requires Sound(s) && s.pending != [] && s.pending[0] < |s.futures| && s.kind[s.pending[0]].Receive?
    ensures DeliveryOk(HandOut(s, message)) && SweepOk(HandOut(s, message))
  {
    var f, q := s.pending[0], s.pending;
    var h := Handout(s.kind[f].call, message);
    WaitingShrinks(s.futures, s.futures[f := Result(Some(message))], q, 1);
    MessagesAppend(s.handed, h);
    FairHandOut(s.handed, s.kind, q, |s.answers|, h);
    assert s.backlog == [] && Messages(s.handed) + [] == Messages(s.handed);
    hide Fair, Messages, Waiting, RegistryOk, HistoryOk;
  }

  lemma {:induction false} HandOutRegistries(s: Box, message: bytes)
    requires Sound(s) && s.pending != [] && s.pending[0] < |s.futures| && s.kind[s.pending[0]].Receive?
    ensures RegistryOk(HandOut(s, message))
  {
    var q := s.pending;
    assert q == [q[0]] + q[1..];
    hide DeliveryOk, SweepOk, HistoryOk, WellKinded;
  }

  lemma {:induction false} HandOutHistory(s: Box, message: bytes)
    requires Sound(s) && s.pending != [] && s.pending[0] < |s.futures| && s.futures[s.pending[0]].Pending?
    requires s.kind[s.pending[0]].Receive?
    ensures HistoryOk(HandOut(s, message))
  {
    var f := s.pending[0];
    ToldHandOut(s.futures, s.kind, s.handed, s.answers, f, Handout(s.kind[f].call, message));
    hide DeliveryOk, SweepOk, RegistryOk, Told;
  }

  ghost function Enqueue(s: Box, message: bytes): Box {
    s.(backlog := s.backlog + [message], arrived := s.arrived + [message])
  }

  lemma {:induction false} EnqueueOk(s: Box, message: bytes)
    requires Sound(s) && s.pending == []
    ensures Sound(Enqueue(s, message))
  {
    ConcatAssociative(Messages(s.handed), s.backlog, [message]);
    hide Fair, Messages, Waiting, Accounted, Apart, Correlated, Told, WellKinded;
  }

  /** The unsettled probes whose acknowledgment is still due. */
  ghost function Due(s: Box): set<Fut>
    requires forall f :: f in s.acking ==> f < |s.futures|
  {
    set f | f in s.acking && s.futures[f].Pending?
  }

  /** The second look at the front receiver raises: it has left the queue, its message is
      gone, and a scan in progress gives up with the acknowledgments it still owes. */
  ghost function Lose(s: Box): Box
    requires s.pending != [] && forall f :: f in s.acking ==> f < |s.futures|
  {
    s.(pending := s.pending[1..], acking := [], stranded := s.stranded + {s.pending[0]} + Due(s))
  }

  lemma {:induction false} AckingBelow(s: Box)
    requires Sound(s)
    ensures forall f :: f in s.acking ==> f < |s.futures|
  {
    hide DeliveryOk, SweepOk, Accounted, HistoryOk, Apart;
  }

  lemma {:induction false} LoseOk(s: Box)
    requires Sound(s) && s.pending != [] && !s.closed
    requires forall f :: f in s.acking ==> f < |s.futures|
    ensures Sound(Lose(s))
  {
    PopQueues(s, false);
    assert s.quarantined + [] == s.quarantined;
    LoseRegistries(s);
    QuietHistory(s, Lose(s));
    hide Fair, Messages, Waiting, RegistryOk, HistoryOk;
  }

  lemma {:induction false} LoseRegistries(s: Box)
    requires Sound(s) && s.pending != []
    requires forall f :: f in s.acking ==> f < |s.futures|
    ensures RegistryOk(Lose(s))
  {
    var q, t := s.pending, Lose(s);
    FrontIsAlone(s);
    assert AllReceivers(s.kind, q);
    assert q == [q[0]] + q[1..];
    hide DeliveryOk, SweepOk, HistoryOk, AllReceivers;
    assert Apart(t.pending, t.quarantined, t.pings, t.handshake, t.acking, t.stranded) by { LoseApart(s); }
    hide Apart;
  }

  lemma {:induction false} LoseApart(s: Box)
    requires Sound(s) && s.pending != []
    requires forall f :: f in s.acking ==> f < |s.futures|
    ensures var t := Lose(s); Apart(t.pending, t.quarantined, t.pings, t.handshake, t.acking, t.stranded)
  {
    FrontIsAlone(s);
    assert AllReceivers(s.kind, s.pending);
    hide DeliveryOk, SweepOk, HistoryOk, Accounted, Apart, WellKinded, AllReceivers;
    LetGoApart(s.kind, s.pending, s.quarantined, s.pings, s.handshake, s.acking, s.stranded, Due(s));
  }

  /** A receiver and probes that are in no other place may be stranded. */
  lemma {:induction false} LetGoApart(
    kind: seq<Kind>, q: seq<Fut>, quarantined: seq<Fut>, pings: map<bytes, Fut>, handshake: Option<Fut>,
    acking: seq<Fut>, stranded: set<Fut>, due: set<Fut>)
    requires AllReceivers(kind, q) && WellKinded(kind, quarantined, pings, handshake, acking, stranded)
    requires Apart(q, quarantined, pings, handshake, acking, stranded) && q != []
    requires q[0] !in q[1..] && q[0] !in pings.Values && handshake != Some(q[0])
    requires forall f :: f in due ==> f in acking
    ensures Apart(q[1..], quarantined, pings, handshake, [], stranded + {q[0]} + due)
  {
    assert q == [q[0]] + q[1..];
    assert forall f :: f in due ==> f !in q && f !in quarantined && handshake != Some(f);
    hide AllReceivers, WellKinded;
  }

  /** A message arrives: the first live receiver gets it, else the backlog does. If the
      receiver's probe `raises` when it is looked at again, nobody does. */
  ghost function Deliver(s: Box, message: bytes, raises: bool): Box
    requires Sound(s)
  {
    SkipToLiveOk(s);
    var t := SkipToLive(s);
    AckingBelow(t);
    if t.pending == [] then Enqueue(t, message)
    else if raises then Lose(t)
    else HandOutOk(t, message); HandOut(t, message)
  }

  lemma {:induction false} DeliverOk(s: Box, message: bytes, raises: bool)
    requires Sound(s)
    ensures Sound(Deliver(s, message, raises))
    ensures s.handed <= Deliver(s, message, raises).handed
    ensures var t := Deliver(s, message, raises);
            t == s.(pending := t.pending, quarantined := t.quarantined, backlog := t.backlog, futures := t.futures,
                    arrived := t.arrived, handed := t.handed, acking := t.acking, stranded := t.stranded)
  {
    SkipToLiveOk(s);
    var t := SkipToLive(s);
    AckingBelow(t);
    assert t.pending != [] ==> !t.closed;
    hide Sound, SkipToLive;
    if t.pending == [] {
      EnqueueOk(t, message);
    } else if raises {
      LoseOk(t);
    } else {
      HandOutOk(t, message);
    }
  }

  /** The three ways delivery can go. */
  lemma {:induction false} DeliverCases(s: Box, message: bytes, raises: bool)
    requires Sound(s)
    ensures Below(s.pending, |s.futures|)
    ensures var t := SkipToLive(s);
            && (forall f :: f in t.acking ==> f < |t.futures|)
            && if t.pending == [] then Deliver(s, message, raises) == Enqueue(t, message)
               else
                 && t.pending[0] < |t.futures| == |t.kind| && t.kind[t.pending[0]].Receive?
                 && Deliver(s, message, raises) == if raises then Lose(t) else HandOut(t, message)
  {
    assert SweepOk(s);
    SkipToLiveOk(s);
    var t := SkipToLive(s);
    AckingBelow(t);
    if t.pending != [] { FrontIsAlone(t); }
    assert RegistryOk(t);
    hide DeliveryOk, SweepOk, Accounted, WellKinded, Apart, HistoryOk, SkipToLive, HandOut, Enqueue, Lose;
  }

  /** Who gets the message: the first live receiver, as the result of its Future; without
      one the backlog; and nobody exactly if that receiver's second look raises. */
  lemma {:induction false} DeliverReaches(s: Box, message: bytes, raises: bool)
    requires Sound(s)
    ensures Below(s.pending, |s.futures|) && forall f :: f in s.acking ==> f < |s.futures|
    ensures var t := Deliver(s, message, raises);
            match FirstLive(s.futures, s.raising, s.pending)
            case None =>
              && t.backlog == s.backlog + [message] && t.arrived == s.arrived + [message]
              && t.futures == s.futures && t.stranded == s.stranded
            case Some(f) =>
              && f in s.pending && f < |s.futures| && t.backlog == s.backlog
              && if raises then
                   t.arrived == s.arrived && t.futures == s.futures && t.stranded == s.stranded + {f} + Due(s)
                 else
                   && t.arrived == s.arrived + [message] && t.futures == s.futures[f := Result(Some(message))]
                   && t.stranded == s.stranded
  {
    DeliverCases(s, message, raises);
    AckingBelow(s);
    SkipFindsFirstLive(s);
    SkipToLiveOk(s);
    FirstLiveInQueue(s.futures, s.raising, s.pending);
    hide Sound, SkipToLive, FirstLive, Deliver;
  }

  lemma {:induction false} FirstLiveInQueue(futures: seq<Outcome>, raising: set<Fut>, q: seq<Fut>)
    requires Below(q, |futures|)
    ensures FirstLive(futures, raising, q).Some? ==> FirstLive(futures, raising, q).value in q
  {
    if q != [] && !(q[0] !in raising && futures[q[0]].Pending?) { FirstLiveInQueue(futures, raising, q[1..]); }
  }

  // ---- recv() ----

  ghost function Raised(raising: set<Fut>, q: seq<Fut>): seq<Fut> {
    if q == [] then []
    else Raised(raising, q[..|q| - 1]) + if q[|q| - 1] in raising then [q[|q| - 1]] else []
  }

  lemma {:induction false} RaisedMembers(raising: set<Fut>, q: seq<Fut>)
    ensures forall f :: f in Raised(raising, q) <==> f in q && f in raising
  {
    if q != [] {
      RaisedMembers(raising, q[..|q| - 1]);
      assert q == q[..|q| - 1] + [q[|q| - 1]];
    }
  }

  lemma {:induction false} WaitingBound(futures: seq<Outcome>, q: seq<Fut>)
    requires Below(q, |futures|)
    ensures Waiting(futures, q) <= |q|
  {
    if q != [] { WaitingBound(futures, q[..|q| - 1]); }
  }

  /** Probe every parked receiver; keep the live ones, quarantine the unprobeable. */
  ghost function Sweep(s: Box): Box
    requires Below(s.pending, |s.futures|)
  {
    var live := Kept(s.futures, s.raising, s.pending);
    s.(pending := live,
       quarantined := s.quarantined + Raised(s.raising, s.pending),
       sweepAt := Max(RECV_SWEEP_MIN, 2 * |live|),
       probes := s.probes + |s.pending|,
       base := |live|)
  }

  lemma {:induction false} SweepKeepsOk(s: Box)
    requires Sound(s) && !s.closed && |s.pending| >= s.sweepAt
    ensures Sound(Sweep(s)) && |Sweep(s).pending| < Sweep(s).sweepAt
  {
    FairSweep(s.futures, s.raising, s.handed, s.kind, s.pending, |s.answers|);
    SweepCounts(s);
    SweepRegistries(s);
    QuietHistory(s, Sweep(s));
    EmptySweep(s);
    hide Fair, Messages, Waiting, Kept, Raised, RegistryOk, HistoryOk, SweepOk;
  }

  lemma {:induction false} EmptySweep(s: Box)
    requires DeliveryOk(s) && SweepOk(s)
    ensures s.backlog != [] ==> Sweep(s).pending == []
  {
  }

  lemma {:induction false} SweepCounts(s: Box)
    requires Sound(s) && |s.pending| >= s.sweepAt
    ensures SweepOk(Sweep(s)) && |Sweep(s).pending| < Sweep(s).sweepAt
  {
    KeptReceivers(s.futures, s.raising, s.kind, s.pending);
    KeptMembers(s.futures, s.raising, s.pending);
    WaitingBound(s.futures, Kept(s.futures, s.raising, s.pending));
    hide Fair, Messages, Waiting, Kept, Raised, RegistryOk, HistoryOk;
  }

  lemma {:induction false} SweepRegistries(s: Box)
    requires Sound(s)
    ensures RegistryOk(Sweep(s))
  {
    KeptMembers(s.futures, s.raising, s.pending);
    RaisedMembers(s.raising, s.pending);
    var live, bad := Kept(s.futures, s.raising, s.pending), Raised(s.raising, s.pending);
    assert AllReceivers(s.kind, s.pending);
    hide Fair, Messages, Waiting, Kept, Raised, HistoryOk, SweepOk, DeliveryOk;
    assert Accounted(s.futures, s.kind, live, s.quarantined + bad, s.pings, s.handshake, s.acking, s.stranded) by {
      hide WellKinded, AllReceivers, Apart;
    }
    assert Apart(live, s.quarantined + bad, s.pings, s.handshake, s.acking, s.stranded) by {
      hide WellKinded, AllReceivers, Accounted;
    }
    hide Accounted, Apart;
  }

  /** A new Future for this call joins the queue. */
  ghost function Join(s: Box): Box
    requires Below(s.pending, |s.futures|)
  {
    s.(pending := s.pending + [|s.futures|],
       futures := s.futures + [Pending],
       kind := s.kind + [Receive(|s.answers|)],
       answers := s.answers + [Parked(|s.futures|)],
       parks := s.parks + 1,
       peak := Max(s.peak, Waiting(s.futures, s.pending) + 1))
  }

  lemma {:induction false} JoinOk(s: Box)
    requires Sound(s) && !s.closed && s.backlog == [] && |s.pending| < s.sweepAt
    ensures Sound(Join(s))
  {
    FairPark(s.handed, s.kind, s.pending, |s.answers|);
    JoinCounts(s);
    JoinRegistries(s);
    JoinHistory(s);
    hide Fair, Messages, RegistryOk, HistoryOk, SweepOk;
  }

  lemma {:induction false} JoinCounts(s: Box)
    requires Sound(s) && |s.pending| < s.sweepAt
    ensures SweepOk(Join(s))
  {
    hide Fair, Messages, RegistryOk, HistoryOk;
    var q := s.pending;
    WaitingShrinks(s.futures, s.futures + [Pending], q, 0);
    assert q[0..] == q;
    assert (q + [|s.futures|])[..|q|] == q;
  }

  lemma {:induction false} WaitingSame(futures: seq<Outcome>, more: seq<Outcome>, q: seq<Fut>)
    requires Below(q, |futures|)
    ensures Below(q, |futures + more|) && Waiting(futures + more, q) == Waiting(futures, q)
  {
    if q != [] { WaitingSame(futures, more, q[..|q| - 1]); }
  }

  /** The recorded peak follows the number of waiting receivers exactly. */
  lemma {:induction false} JoinPeak(s: Box)
    requires Below(s.pending, |s.futures|)
    ensures var t := Join(s);
            Below(t.pending, |t.futures|) && t.peak == Max(s.peak, Waiting(t.futures, t.pending))
  {
    var q := s.pending;
    WaitingSame(s.futures, [Pending], q);
    assert (q + [|s.futures|])[..|q|] == q;
  }

  lemma {:induction false} JoinRegistries(s: Box)
    requires Sound(s)
    ensures RegistryOk(Join(s))
  {
    hide DeliveryOk, SweepOk, HistoryOk;
  }

  lemma {:induction false} JoinHistory(s: Box)
    requires Sound(s)
    ensures HistoryOk(Join(s))
  {
    ToldPark(s.futures, s.kind, s.handed, s.answers);
    hide DeliveryOk, SweepOk, RegistryOk, Told;
  }

  ghost function Park(s: Box): Box
    requires Sound(s) && !s.closed
  {
    if |s.pending| >= s.sweepAt then SweepKeepsOk(s); Join(Sweep(s)) else Join(s)
  }

  ghost function Recv(s: Box): (Box, Received)
    requires Sound(s)
  {
    if s.backlog != [] then
      (s.(backlog := s.backlog[1..],
          handed := s.handed + [Handout(|s.answers|, s.backlog[0])],
          answers := s.answers + [Ready(s.backlog[0])]),
       Ready(s.backlog[0]))
    else if s.closed then (s.(answers := s.answers + [ConnectionClosed]), ConnectionClosed)
    else if !s.bound then (s.(answers := s.answers + [NotBound]), NotBound)
    else (Park(s), Parked(|s.futures|))
  }

  /** recv() keeps the state sound and is answered by the front of the backlog if there is
      one, closed or not; only otherwise by an error or a Future. */
  lemma {:induction false} RecvOk(s: Box)
    requires Sound(s)
    ensures Sound(Recv(s).0) && Recv(s).0.arrived == s.arrived && s.handed <= Recv(s).0.handed
    ensures Recv(s).0.answers == s.answers + [Recv(s).1]
    ensures s.backlog != [] ==> Recv(s).1 == Ready(s.backlog[0]) && Recv(s).0.backlog == s.backlog[1..]
    ensures s.backlog == [] && s.closed ==> Recv(s).1 == ConnectionClosed && Recv(s).0.backlog == []
    ensures s.closed ==> Recv(s).0.futures == s.futures
    ensures Recv(s).0.closed == s.closed && Recv(s).0.pongs == s.pongs && Recv(s).0.stranded == s.stranded
    ensures Recv(s).0.kind == s.kind || Recv(s).0.kind == s.kind + [Receive(|s.answers|)]
  {
    if s.backlog != [] {
      ReadyOk(s);
    } else if s.closed || !s.bound {
      UnservedOk(s);
    } else {
      hide DeliveryOk, SweepOk, RegistryOk, HistoryOk;
      if |s.pending| >= s.sweepAt {
        SweepKeepsOk(s);
        JoinOk(Sweep(s));
      } else {
        JoinOk(s);
      }
    }
    hide Sound;
  }

  lemma {:induction false} UnservedOk(s: Box)
    requires Sound(s) && s.backlog == [] && (s.closed || !s.bound)
    ensures Sound(Recv(s).0)
  {
    FairSkip(s.handed, s.kind, s.pending, |s.answers|);
    ToldNothing(s.futures, s.kind, s.handed, s.answers, Recv(s).1);
    hide Fair, Messages, Accounted, WellKinded, Apart, Correlated, Told, SweepOk;
  }

  /** What parking a receiver changes. */
  lemma {:induction false} RecvParks(s: Box)
    requires Sound(s) && s.backlog == [] && !s.closed && s.bound
    ensures var t, swept := Recv(s).0, |s.pending| >= s.sweepAt;
            && Below(s.pending, |s.futures|)
            && var live := if swept then Kept(s.futures, s.raising, s.pending) else s.pending;
               && t == s.(pending := live + [|s.futures|],
                          quarantined := s.quarantined + (if swept then Raised(s.raising, s.pending) else []),
                          sweepAt := if swept then Max(RECV_SWEEP_MIN, 2 * |live|) else s.sweepAt,
                          futures := s.futures + [Pending],
                          probes := s.probes + (if swept then |s.pending| else 0),
                          kind := t.kind, answers := t.answers, parks := s.parks + 1, base := t.base, peak := t.peak)
               && Recv(s).1 == Parked(|s.futures|)
  {
    assert SweepOk(s);
    hide Sound, Kept, Raised, Waiting;
    assert s.quarantined + [] == s.quarantined;
  }

  lemma {:induction false} ReadyOk(s: Box)
    requires Sound(s) && s.backlog != []
    ensures Sound(Recv(s).0)
  {
    var h := Handout(|s.answers|, s.backlog[0]);
    FairReady(s.handed, s.kind, |s.answers|, h);
    MessagesAppend(s.handed, h);
    assert s.backlog == [s.backlog[0]] + s.backlog[1..];
    ConcatAssociative(Messages(s.handed), [s.backlog[0]], s.backlog[1..]);
    ToldReady(s.futures, s.kind, s.handed, s.answers, s.backlog[0]);
    hide Fair, Messages, Accounted, WellKinded, Apart, Correlated, Told, SweepOk;
  }

  // ---- Ping probes ----

  datatype Probed = TooLong | Gone | Unbound | Unprobeable | Duplicate | WriteFailed | Probing(future: Fut)

  /** Remove a registered probe from the registry. */
  ghost function Forget(s: Box, payload: bytes): Box { s.(pings := s.pings - {payload}) }

  ghost function Register(s: Box, payload: bytes): Box {
    s.(futures := s.futures + [Pending],
       kind := s.kind + [Ping(payload, |s.pongs|)],
       pings := s.pings[payload := |s.futures|])
  }

  /** A probe Future that is cancelled before it is ever registered. */
  ghost function Abandon(s: Box, payload: bytes): Box {
    s.(futures := s.futures + [Cancelled], kind := s.kind + [Ping(payload, |s.pongs|)])
  }

  /** Removing an entry removes its Future from the registry's values and adds none. */
  lemma {:induction false} FewerValues(pings: map<bytes, Fut>, payload: bytes)
    ensures (pings - {payload}).Values <= pings.Values
  {
    assert forall p :: p in pings - {payload} ==> p in pings && (pings - {payload})[p] == pings[p];
  }

  lemma {:induction false} ForgetOk(s: Box, payload: bytes)
    requires Sound(s)
    requires payload in s.pings ==> s.pings[payload] < |s.futures| && !s.futures[s.pings[payload]].Pending?
    ensures Sound(Forget(s, payload))
  {
    FewerValues(s.pings, payload);
    QueuesUnchanged(s, Forget(s, payload));
    QuietHistory(s, Forget(s, payload));
    hide DeliveryOk, SweepOk, HistoryOk;
  }

  /** A new Future that no receiver queue holds keeps order, counts and history. */
  lemma {:induction false} GrowOk(s: Box, outcome: Outcome, k: Kind)
    requires Sound(s) && !outcome.Result? && k.Ping? && k.since == |s.pongs|
    ensures var t := s.(futures := s.futures + [outcome], kind := s.kind + [k]);
            DeliveryOk(t) && SweepOk(t) && HistoryOk(t)
  {
    FairGrow(s.handed, s.kind, s.pending, |s.answers|, k);
    WaitingShrinks(s.futures, s.futures + [outcome], s.pending, 0);
    assert s.pending[0..] == s.pending;
    ToldGrow(s.futures, s.kind, s.handed, s.answers, outcome, k);
    GrowCorrelated(s, outcome, k);
    hide Fair, Messages, Waiting, RegistryOk, Told, Correlated;
  }

  lemma {:induction false} GrowCorrelated(s: Box, outcome: Outcome, k: Kind)
    requires Sound(s) && !outcome.Result? && k.Ping? && k.since == |s.pongs|
    ensures Correlated(s.futures + [outcome], s.kind + [k], s.pongs, s.answer, s.acking)
  {
    hide DeliveryOk, SweepOk, Accounted, Apart, Told;
  }

  lemma {:induction false} RegisterOk(s: Box, payload: bytes)
    requires Sound(s) && !s.closed && payload !in s.pings
    ensures Sound(Register(s, payload))
  {
    GrowOk(s, Pending, Ping(payload, |s.pongs|));
    RegisterRegistries(s, payload);
    hide Fair, Messages, Waiting, Below, Amortized, RegistryOk, Correlated, Told;
  }

  lemma {:induction false} RegisterRegistries(s: Box, payload: bytes)
    requires Sound(s) && payload !in s.pings
    ensures RegistryOk(Register(s, payload))
  {
    var n, t := |s.futures|, Register(s, payload);
    assert AllReceivers(s.kind, s.pending);
    hide DeliveryOk, SweepOk, HistoryOk;
    assert Apart(t.pending, t.quarantined, t.pings, t.handshake, t.acking, t.stranded) by {
      hide Accounted, Apart, AllReceivers, WellKinded;
      RegisterApart(s.kind, s.pending, s.quarantined, s.pings, s.handshake, s.acking, s.stranded, payload);
    }
    hide Apart, AllReceivers;
    assert WellKinded(t.kind, t.quarantined, t.pings, t.handshake, t.acking, t.stranded) by { hide Accounted; }
    hide WellKinded;
  }

  lemma {:induction false} RegisterApart(
    kind: seq<Kind>, q: seq<Fut>, quarantined: seq<Fut>, pings: map<bytes, Fut>, handshake: Option<Fut>,
    acking: seq<Fut>, stranded: set<Fut>, payload: bytes)
    requires AllReceivers(kind, q) && WellKinded(kind, quarantined, pings, handshake, acking, stranded)
    requires Apart(q, quarantined, pings, handshake, acking, stranded)
    ensures Apart(q, quarantined, pings[payload := |kind|], handshake, acking, stranded)
  {
    var pings' := pings[payload := |kind|];
    assert pings'.Values <= pings.Values + {|kind|} by {
      assert forall p :: p in pings' ==> p == payload || (p in pings && pings'[p] == pings[p]);
    }
    hide AllReceivers;
  }

  lemma {:induction false} AbandonRegistries(s: Box, payload: bytes)
    requires Sound(s)
    ensures RegistryOk(Abandon(s, payload))
  {
    hide DeliveryOk, SweepOk, HistoryOk, Apart;
  }

  lemma {:induction false} AbandonOk(s: Box, payload: bytes)
    requires Sound(s)
    ensures Sound(Abandon(s, payload))
  {
    GrowOk(s, Cancelled, Ping(payload, |s.pongs|));
    AbandonRegistries(s, payload);
    hide Fair, Messages, Waiting, Below, Amortized, RegistryOk, Correlated, Told;
  }

  /** ping_waiter(): `writeOk` says whether the transport accepted the frame. */
  ghost function PingWaiter(s: Box, payload: bytes, writeOk: bool): (Box, Probed)
    requires Sound(s)
  {
    if |payload| > 125 then (s, TooLong)
    else if s.closed then (s, Gone)
    else if !s.bound then (s, Unbound)
    else if payload in s.pings && s.pings[payload] in s.raising then (s, Unprobeable)
    else if payload in s.pings && s.futures[s.pings[payload]].Pending? then (s, Duplicate)
    else
      var t := Forget(s, payload);
      var f := |t.futures|;
      if !t.transport then (Abandon(t, payload), Gone)
      else if writeOk then (Register(t, payload), Probing(f))
      else (Teardown(Abandon(t, payload)), WriteFailed)
  }

  lemma {:induction false} PingWaiterOk(s: Box, payload: bytes, writeOk: bool)
    requires Sound(s) && s.acking == []
    ensures Sound(PingWaiter(s, payload, writeOk).0)
    ensures s.closed ==> PingWaiter(s, payload, writeOk).0 == s
  {
    hide DeliveryOk, SweepOk, Accounted, Apart, HistoryOk;
    if |payload| <= 125 && !s.closed && s.bound
       && !(payload in s.pings && (s.pings[payload] in s.raising || s.futures[s.pings[payload]].Pending?)) {
      ForgetOk(s, payload);
      var t := Forget(s, payload);
      if t.transport && writeOk {
        RegisterOk(t, payload);
      } else {
        AbandonOk(t, payload);
        TeardownOk(Abandon(t, payload));
      }
    }
  }

  /** No unsettled or unprobeable Ping uses the payload. */
  ghost predicate Free(s: Box, payload: bytes) {
    payload in s.pings ==>
      var f := s.pings[payload]; f < |s.futures| && f !in s.raising && !s.futures[f].Pending?
  }

  /** The answer of ping_waiter() in each situation, and when it starts a probe: then the
      Future is new and unsettled and the registry holds it for the payload, and nothing else
      changes but the entry it replaces. */
  lemma {:induction false} PingWaiterAnswers(s: Box, payload: bytes, writeOk: bool)
    requires Sound(s)
    ensures var (t, r) := PingWaiter(s, payload, writeOk);
            var ready := |payload| <= 125 && !s.closed && s.bound;
            && (r.TooLong? <==> |payload| > 125)
            && (r.Gone? <==> |payload| <= 125 && (s.closed || (s.bound && Free(s, payload) && !s.transport)))
            && (r.Unbound? <==> |payload| <= 125 && !s.closed && !s.bound)
            && (r.Unprobeable? <==> ready && payload in s.pings && s.pings[payload] in s.raising)
            && (r.Duplicate? <==> ready && !Free(s, payload) && s.pings[payload] !in s.raising)
            && (r.WriteFailed? <==> ready && Free(s, payload) && s.transport && !writeOk)
            && (r.Probing? <==> ready && Free(s, payload) && s.transport && writeOk)
            && (r.WriteFailed? ==> t.closed)
            && (!r.WriteFailed? && !r.Probing? ==> t.pings.Keys <= s.pings.Keys && t.closed == s.closed)
            && (r.Probing? ==>
                  && r.future == |s.futures| && t.pings == s.pings[payload := r.future]
                  && t == s.(futures := s.futures + [Pending], kind := s.kind + [Ping(payload, |s.pongs|)],
                             pings := t.pings))
  {
    assert payload in s.pings ==> s.pings[payload] < |s.futures|;
    hide Sound, IsRegistered;
    assert (s.pings - {payload})[payload := |s.futures|] == s.pings[payload := |s.futures|];
  }

  /** Same messages, calls, counters and acknowledgments. */
  ghost predicate SameHistory(s: Box, t: Box) {
    && t.arrived == s.arrived && t.handed == s.handed && t.answers == s.answers && t.backlog == s.backlog
    && t.parks == s.parks && t.probes == s.probes && t.peak == s.peak && t.stranded == s.stranded
    && t.pongs == s.pongs && t.answer == s.answer && t.acking == s.acking && t.raising == s.raising
  }

  lemma {:induction false} ProbeFrame(s: Box, payload: bytes)
    ensures SameHistory(s, Forget(s, payload))
    ensures SameHistory(s, Register(s, payload)) && SameHistory(s, Abandon(s, payload))
    ensures SameHistory(s, Teardown(s))
  {
    hide IsRegistered;
  }

  lemma {:induction false} PingWaiterFrame(s: Box, payload: bytes, writeOk: bool)
    requires Sound(s)
    ensures SameHistory(s, PingWaiter(s, payload, writeOk).0)
  {
    hide Sound, Forget, Register, Abandon, Teardown;
    ProbeFrame(s, payload);
    ProbeFrame(Forget(s, payload), payload);
    ProbeFrame(Abandon(Forget(s, payload), payload), payload);
  }

  /** A Pong takes the probe registered for its payload out of the registry, for acknowledgment. */
  ghost function HoldPong(s: Box, payload: bytes): Box {
    s.(pongs := s.pongs + [payload],
       pings := s.pings - {payload},
       acking := s.acking + if payload in s.pings then [s.pings[payload]] else [],
       answer := if payload in s.pings then s.answer[s.pings[payload] := |s.pongs|] else s.answer)
  }

  lemma {:induction false} HoldPongOk(s: Box, payload: bytes)
    requires Sound(s)
    ensures Sound(HoldPong(s, payload))
  {
    hide DeliveryOk, SweepOk, Accounted, WellKinded, Apart, Correlated, Told;
    QueuesUnchanged(s, HoldPong(s, payload));
    HoldRegistries(s, payload);
    HoldCorrelated(s, payload);
  }

  lemma {:induction false} HoldRegistries(s: Box, payload: bytes)
    requires Sound(s)
    ensures RegistryOk(HoldPong(s, payload))
  {
    FewerValues(s.pings, payload);
    hide DeliveryOk, SweepOk, HistoryOk;
    if payload in s.pings {
      var f := s.pings[payload];
      assert f in s.pings.Values;
      assert f !in (s.pings - {payload}).Values;
    }
  }

  lemma {:induction false} HoldCorrelated(s: Box, payload: bytes)
    requires Sound(s)
    ensures var t := HoldPong(s, payload);
            |t.kind| == |t.futures| && Correlated(t.futures, t.kind, t.pongs, t.answer, t.acking)
  {
    hide DeliveryOk, SweepOk, Accounted, Apart, Told;
  }

  /** Settle every probe in hand; one whose probe raises gets an exception instead. */
  ghost function Acknowledge(s: Box): Box {
    s.(acking := [],
       futures := seq(|s.futures|, i requires 0 <= i < |s.futures| =>
         if s.futures[i].Pending? && i in s.acking then (if i in s.raising then Failed else Result(None))
         else s.futures[i]))
  }

  lemma {:induction false} AcknowledgeOk(s: Box)
    requires Sound(s)
    ensures Sound(Acknowledge(s))
  {
    hide DeliveryOk, SweepOk, Accounted, WellKinded, Apart, Correlated, Told;
    QueuesUnchanged(s, Acknowledge(s));
    AcknowledgeRegistries(s);
    AcknowledgeHistory(s);
  }

  lemma {:induction false} AcknowledgeRegistries(s: Box)
    requires Sound(s)
    ensures RegistryOk(Acknowledge(s))
  {
    hide DeliveryOk, SweepOk, HistoryOk;
  }

  lemma {:induction false} AcknowledgeHistory(s: Box)
    requires Sound(s)
    ensures HistoryOk(Acknowledge(s))
  {
    hide DeliveryOk, SweepOk, Accounted, Apart;
    ToldUnchanged(s.futures, Acknowledge(s).futures, s.kind, s.handed, s.answers);
    hide Told;
  }

  /** A Pong outside a scan is acknowledged at once. */
  ghost function PongArrives(s: Box, payload: bytes): Box { Acknowledge(HoldPong(s, payload)) }

  /** A Pong settles at most the probe registered for its payload, and no other Future. */
  lemma {:induction false} PongArrivesOk(s: Box, payload: bytes)
    requires Sound(s) && s.acking == []
    ensures Sound(PongArrives(s, payload))
    ensures var t := PongArrives(s, payload);
            && |t.futures| == |s.futures| && payload !in t.pings && t.acking == []
            && (forall p :: p in s.pings && p != payload ==> p in t.pings && t.pings[p] == s.pings[p])
            && (forall f :: 0 <= f < |s.futures| ==>
                  t.futures[f] ==
                  if payload in s.pings && s.pings[payload] == f && s.futures[f].Pending? then
                    (if f in s.raising then Failed else Result(None))
                  else s.futures[f])
  {
    HoldPongOk(s, payload);
    AcknowledgeOk(HoldPong(s, payload));
    hide Sound;
    assert s.acking == [];
    PongSpares(s, payload);
    hide HoldPong, Acknowledge;
  }

  lemma {:induction false} PongSpares(s: Box, payload: bytes)
    requires s.acking == []
    ensures var t := PongArrives(s, payload);
            && |t.futures| == |s.futures| && t.pings == s.pings - {payload} && t.acking == []
            && (forall f :: 0 <= f < |s.futures| ==>
                  t.futures[f] ==
                  if payload in s.pings && s.pings[payload] == f && s.futures[f].Pending? then
                    (if f in s.raising then Failed else Result(None))
                  else s.futures[f])
  {
  }

  /** The done-callback of a settled probe removes its own registry entry and no other. */
  ghost function Cleanup(s: Box, f: Fut): Box
    requires Sound(s) && f < |s.futures| && s.kind[f].Ping?
  {
    var p := s.kind[f].payload;
    if p in s.pings && s.pings[p] == f then Forget(s, p) else s
  }

  lemma {:induction false} CleanupOk(s: Box, f: Fut)
    requires Sound(s) && f < |s.futures| && s.kind[f].Ping? && !s.futures[f].Pending?
    ensures Sound(Cleanup(s, f))
    ensures forall p :: p in s.pings && s.pings[p] != f ==>
      p in Cleanup(s, f).pings && Cleanup(s, f).pings[p] == s.pings[p]
    ensures forall p :: p in Cleanup(s, f).pings ==> p in s.pings && Cleanup(s, f).pings[p] != f
  {
    hide DeliveryOk, SweepOk, Accounted, Apart, HistoryOk;
    var p := s.kind[f].payload;
    if p in s.pings && s.pings[p] == f { ForgetOk(s, p); }
  }

  // ---- handshake and teardown ----

  /** The handshake Future is taken from the client and settled unless it is done. If its
      probe raises, it is let go unsettled. */
  ghost function LetGo(s: Box, outcome: Outcome): Box
    requires Sound(s)
  {
    var h := s.handshake;
    s.(handshake := None,
       stranded := s.stranded +
                   (if h.Some? && h.value in s.raising && s.futures[h.value].Pending? then {h.value} else {}),
       futures := if h.Some? && h.value !in s.raising then SettleOne(s.futures, h.value, outcome) else s.futures)
  }

  /** The handshake succeeded. */
  ghost function AcceptHandshake(s: Box): Box
    requires Sound(s)
  {
    LetGo(s, Result(None))
  }

  /** The TLS transport failed: it takes the handshake Future before it aborts. */
  ghost function FailTls(s: Box): Box
    requires Sound(s)
  {
    LetGo(s, Failed)
  }

  /** The handshake was rejected: its Future fails whatever its probe says. */
  ghost function RejectHandshake(s: Box): Box
    requires Sound(s)
  {
    s.(handshake := None,
       futures := if s.handshake.Some? then SettleOne(s.futures, s.handshake.value, Failed) else s.futures)
  }

  lemma {:induction false} LetGoOk(s: Box, outcome: Outcome)
    requires Sound(s) && (outcome == Result(None) || outcome == Failed)
    ensures Sound(LetGo(s, outcome))
  {
    var t := LetGo(s, outcome);
    assert DeliveryOk(t) && SweepOk(t) && HistoryOk(t) by {
      hide DeliveryOk, SweepOk, Accounted, Apart, Correlated, Told;
      QueuesUnchanged(s, t);
      QuietHistory(s, t);
    }
    LetGoRegistries(s, outcome);
    hide DeliveryOk, SweepOk, RegistryOk, HistoryOk;
  }

  lemma {:induction false} LetGoRegistries(s: Box, outcome: Outcome)
    requires Sound(s) && !outcome.Pending?
    ensures RegistryOk(LetGo(s, outcome))
  {
    assert AllReceivers(s.kind, s.pending);
    hide DeliveryOk, SweepOk, HistoryOk;
  }

  lemma {:induction false} RejectHandshakeOk(s: Box)
    requires Sound(s)
    ensures Sound(RejectHandshake(s))
  {
    var t := RejectHandshake(s);
    assert DeliveryOk(t) && SweepOk(t) && HistoryOk(t) by {
      hide DeliveryOk, SweepOk, Accounted, Apart, Correlated, Told;
      QueuesUnchanged(s, t);
      QuietHistory(s, t);
    }
    hide DeliveryOk, SweepOk, HistoryOk;
  }

  ghost predicate IsRegistered(s: Box, f: Fut) {
    f in s.pending || f in s.quarantined || s.handshake == Some(f) || f in s.pings.Values
  }

  /** Close: every registry is emptied and each Future taken from it is failed unless done. */
  ghost function Teardown(s: Box): Box {
    s.(pending := [], quarantined := [], pings := map[], handshake := None,
       closed := true, bound := false, transport := false,
       futures := seq(|s.futures|, i requires 0 <= i < |s.futures| =>
         if s.futures[i].Pending? && IsRegistered(s, i) then Failed else s.futures[i]))
  }

  lemma {:induction false} TeardownOk(s: Box)
    requires Sound(s) && s.acking == []
    ensures Sound(Teardown(s))
  {
    var t := Teardown(s);
    hide Messages;
    assert Waiting(t.futures, []) == 0;
    assert HandedCalls(s.handed) + ParkedCalls(s.kind, []) == HandedCalls(s.handed);
    FairEmpty(s.handed, s.kind, s.pending, |s.answers|);
    TeardownRegistries(s);
    QuietHistory(s, t);
    hide Fair, Waiting, RegistryOk, HistoryOk;
  }

  lemma {:induction false} FairEmpty(handed: seq<Handout>, kind: seq<Kind>, q: seq<Fut>, calls: nat)
    requires Fair(handed, kind, q, calls)
    ensures Fair(handed, kind, [], calls)
    decreases |q|
  {
    if q != [] {
      FairPop(handed, kind, q, calls);
      FairEmpty(handed, kind, q[1..], calls);
    }
  }

  lemma {:induction false} TeardownRegistries(s: Box)
    requires Sound(s) && s.acking == []
    ensures RegistryOk(Teardown(s))
  {
    hide DeliveryOk, SweepOk, HistoryOk;
    var t := Teardown(s);
    forall f | 0 <= f < |t.futures| && t.futures[f].Pending? ensures f in t.stranded {
      assert s.futures[f].Pending? && !IsRegistered(s, f);
    }
  }

  /** Teardown is total: afterwards no registry holds anything, and a Future is unsettled
      exactly if it was stranded and nobody cancelled it. */
  lemma {:induction false} TeardownSettles(s: Box, f: Fut)
    requires Sound(s) && f < |s.futures| && s.acking == []
    ensures Emptied(Teardown(s))
    ensures Teardown(s).futures[f].Pending? <==> s.futures[f].Pending? && f in s.stranded
  {
    hide DeliveryOk, SweepOk, HistoryOk;
    if s.futures[f].Pending? && s.kind[f].Ping? && f !in s.stranded {
      assert s.pings[s.kind[f].payload] in s.pings.Values;
    }
  }

  /** On a closed connection every unsettled Future is stranded. */
  lemma {:induction false} ClosedSettled(s: Box)
    requires Sound(s) && s.closed
    ensures forall f :: 0 <= f < |s.futures| && s.futures[f].Pending? ==> f in s.stranded
  {
    hide DeliveryOk, SweepOk, HistoryOk;
  }

  lemma {:induction false} KeptSame(futures: seq<Outcome>, more: seq<Outcome>, raising: set<Fut>, q: seq<Fut>)
    requires Below(q, |futures|)
    ensures Below(q, |futures + more|) && Kept(futures + more, raising, q) == Kept(futures, raising, q)
  {
    if q != [] { KeptSame(futures, more, raising, q[..|q| - 1]); }
  }

  /** Failing exactly the registered Futures is what teardown does to them. */
  lemma {:induction false} FailedRegistered(s: Box, taken: seq<Fut>, futures: seq<Outcome>)
    requires forall f :: f in taken <==> IsRegistered(s, f)
    requires |futures| == |s.futures|
    requires forall f :: 0 <= f < |futures| ==>
               futures[f] == if s.futures[f].Pending? && f in taken then Failed else s.futures[f]
    ensures futures == Teardown(s).futures
  {
    hide IsRegistered;
  }

  lemma {:induction false} RegisteredBelow(s: Box)
    requires Sound(s)
    ensures forall f: Fut :: IsRegistered(s, f) ==> f < |s.futures|
  {
    assert AllReceivers(s.kind, s.pending);
    hide DeliveryOk, SweepOk, Accounted, Apart, HistoryOk;
  }
}
