/**
 Order and counting for delivery: who is served before whom, what a sweep keeps
 and costs, and what the recv() calls of a run got.
 */
module DeliveryOrder {
  import opened Common

  type Fut = nat

  datatype Outcome = Pending | Cancelled | Result(value: Option<bytes>) | Failed

  /** What a Future was created for: the n-th recv() call, a Ping payload together
      with the number of Pongs seen before it was registered, or the handshake. */
  datatype Kind = Receive(call: nat) | Ping(payload: bytes, since: nat) | Handshake

  const RECV_SWEEP_MIN := 32

  // ---- order ----

  /** A message handed to a recv() call. */
  datatype Handout = Handout(call: nat, message: bytes)

  ghost function Messages(handed: seq<Handout>): seq<bytes> {
    seq(|handed|, i requires 0 <= i < |handed| => handed[i].message)
  }

  ghost function HandedCalls(handed: seq<Handout>): seq<nat> {
    seq(|handed|, i requires 0 <= i < |handed| => handed[i].call)
  }

  ghost predicate AllReceivers(kind: seq<Kind>, q: seq<Fut>) {
    forall i :: 0 <= i < |q| ==> q[i] < |kind| && kind[q[i]].Receive?
  }

  ghost function ParkedCalls(kind: seq<Kind>, q: seq<Fut>): seq<nat>
    requires AllReceivers(kind, q)
  {
    seq(|q|, i requires 0 <= i < |q| => kind[q[i]].call)
  }

  ghost predicate Increasing(s: seq<nat>) {
    |s| < 2 || (s[|s| - 2] < s[|s| - 1] && Increasing(s[..|s| - 1]))
  }

  /** Calls that got a message, in hand-out order, then parked calls, then the next
      call number: one strictly increasing list. */
  ghost predicate Fair(handed: seq<Handout>, kind: seq<Kind>, q: seq<Fut>, calls: nat) {
    && AllReceivers(kind, q)
    && Increasing(HandedCalls(handed) + ParkedCalls(kind, q) + [calls])
  }

  lemma {:induction false} IncreasingAt(s: seq<nat>, i: nat, j: nat)
    requires Increasing(s) && i < j < |s|
    ensures s[i] < s[j]
  {
    var n := |s| - 1;
    if i < j - 1 {
      IncreasingAt(s[..n], i, if j < n then j else n - 1);
    }
    if j < n { IncreasingAt(s[..n], i, j); }
  }

  lemma {:induction false} IncreasingFrom(s: seq<nat>)
    requires forall i, j :: 0 <= i < j < |s| ==> s[i] < s[j]
    ensures Increasing(s)
  {
    if |s| >= 2 { IncreasingFrom(s[..|s| - 1]); }
  }

  lemma {:induction false} IncreasingSnoc(s: seq<nat>, c: nat)
    ensures Increasing(s + [c]) <==> Increasing(s) && forall i :: 0 <= i < |s| ==> s[i] < c
  {
    assert (s + [c])[..|s|] == s;
    if Increasing(s + [c]) {
      forall i | 0 <= i < |s| ensures s[i] < c { IncreasingAt(s + [c], i, |s|); }
    }
  }

  /** A call that gets nothing, or a later call number, changes nothing for the others. */
  lemma {:induction false} FairSkip(handed: seq<Handout>, kind: seq<Kind>, q: seq<Fut>, calls: nat)
    requires Fair(handed, kind, q, calls)
    ensures Fair(handed, kind, q, calls + 1)
  {
    IncreasingSnoc(HandedCalls(handed) + ParkedCalls(kind, q), calls);
    IncreasingSnoc(HandedCalls(handed) + ParkedCalls(kind, q), calls + 1);
  }

  /** Creating a Future of any kind leaves the order alone. */
  lemma {:induction false} FairGrow(handed: seq<Handout>, kind: seq<Kind>, q: seq<Fut>, calls: nat, k: Kind)
    requires Fair(handed, kind, q, calls)
    ensures Fair(handed, kind + [k], q, calls)
  {
    assert ParkedCalls(kind + [k], q) == ParkedCalls(kind, q);
  }

  /** A receiver leaves the front of the queue. */
  lemma {:induction false} FairPop(handed: seq<Handout>, kind: seq<Kind>, q: seq<Fut>, calls: nat)
    requires Fair(handed, kind, q, calls) && q != []
    ensures Fair(handed, kind, q[1..], calls)
  {
    var s := HandedCalls(handed) + ParkedCalls(kind, q) + [calls];
    var t := HandedCalls(handed) + ParkedCalls(kind, q[1..]) + [calls];
    var n := |handed|;
    assert forall i :: 0 <= i < n ==> t[i] == s[i];
    assert forall i :: n <= i < |t| ==> t[i] == s[i + 1];
    forall i, j | 0 <= i < j < |t| ensures t[i] < t[j] {
      IncreasingAt(s, if i < n then i else i + 1, if j < n then j else j + 1);
    }
    IncreasingFrom(t);
  }

  /** Handing a message to the front receiver moves its call from one part of the list to the other. */
  lemma {:induction false} FairHandOut(handed: seq<Handout>, kind: seq<Kind>, q: seq<Fut>, calls: nat, h: Handout)
    requires Fair(handed, kind, q, calls) && q != [] && h.call == kind[q[0]].call
    ensures Fair(handed + [h], kind, q[1..], calls)
  {
    assert HandedCalls(handed + [h]) + ParkedCalls(kind, q[1..]) == HandedCalls(handed) + ParkedCalls(kind, q);
  }

  /** A call served from the backlog, while nobody is parked. */
  lemma {:induction false} FairReady(handed: seq<Handout>, kind: seq<Kind>, calls: nat, h: Handout)
    requires Fair(handed, kind, [], calls) && h.call == calls
    ensures Fair(handed + [h], kind, [], calls + 1)
  {
    assert HandedCalls(handed + [h]) + ParkedCalls(kind, []) == HandedCalls(handed) + ParkedCalls(kind, []) + [calls];
    IncreasingSnoc(HandedCalls(handed) + ParkedCalls(kind, []), calls);
    IncreasingSnoc(HandedCalls(handed + [h]) + ParkedCalls(kind, []), calls + 1);
  }

  /** A new receiver parks behind all others. */
  lemma {:induction false} FairPark(handed: seq<Handout>, kind: seq<Kind>, q: seq<Fut>, calls: nat)
    requires Fair(handed, kind, q, calls)
    ensures Fair(handed, kind + [Receive(calls)], q + [|kind|], calls + 1)
  {
    hide Increasing, HandedCalls, ParkedCalls;
    ParkedCallsPark(kind, q, calls);
    var h, p := HandedCalls(handed), ParkedCalls(kind, q);
    ConcatAssociative(h, p, [calls]);
    IncreasingSnoc(h + p, calls);
    IncreasingSnoc(h + p + [calls], calls + 1);
  }

  lemma {:induction false} ParkedCallsPark(kind: seq<Kind>, q: seq<Fut>, calls: nat)
    requires AllReceivers(kind, q)
    ensures AllReceivers(kind + [Receive(calls)], q + [|kind|])
    ensures ParkedCalls(kind + [Receive(calls)], q + [|kind|]) == ParkedCalls(kind, q) + [calls]
  {
  }

  /** Of two calls that got messages, the earlier call got the earlier message. */
  lemma {:induction false} EarlierCallEarlierMessage(handed: seq<Handout>, kind: seq<Kind>, q: seq<Fut>, calls: nat,
    i: nat, j: nat)
    requires Fair(handed, kind, q, calls) && i < |handed| && j < |handed|
    ensures i < j <==> handed[i].call < handed[j].call
  {
    var s := HandedCalls(handed) + ParkedCalls(kind, q) + [calls];
    assert s[i] == handed[i].call && s[j] == handed[j].call;
    if i < j { IncreasingAt(s, i, j); }
    if j < i { IncreasingAt(s, j, i); }
  }

  // ---- the sweep ----

  ghost predicate Below(q: seq<Fut>, n: nat) { forall i :: 0 <= i < |q| ==> q[i] < n }

  /** How many receivers in `q` are still waiting. */
  ghost function Waiting(futures: seq<Outcome>, q: seq<Fut>): nat
    requires Below(q, |futures|)
  {
    if q == [] then 0
    else Waiting(futures, q[..|q| - 1]) + if futures[q[|q| - 1]].Pending? then 1 else 0
  }

  /** Receivers a sweep keeps: those whose probe answers "not done". */
  ghost function Kept(futures: seq<Outcome>, raising: set<Fut>, q: seq<Fut>): seq<Fut>
    requires Below(q, |futures|)
  {
    if q == [] then []
    else
      var f := q[|q| - 1];
      Kept(futures, raising, q[..|q| - 1]) + if f !in raising && futures[f].Pending? then [f] else []
  }

  lemma {:induction false} KeptMembers(futures: seq<Outcome>, raising: set<Fut>, q: seq<Fut>)
    requires Below(q, |futures|)
    ensures forall f :: f in Kept(futures, raising, q) <==>
      f in q && f !in raising && f < |futures| && futures[f].Pending?
    ensures |Kept(futures, raising, q)| <= Waiting(futures, q)
  {
    if q != [] {
      var n := |q| - 1;
      KeptMembers(futures, raising, q[..n]);
      assert q == q[..n] + [q[n]];
    }
  }

  lemma {:induction false} KeptReceivers(futures: seq<Outcome>, raising: set<Fut>, kind: seq<Kind>, q: seq<Fut>)
    requires |kind| == |futures| && AllReceivers(kind, q)
    ensures Below(q, |futures|) && AllReceivers(kind, Kept(futures, raising, q))
  {
    if q != [] { KeptReceivers(futures, raising, kind, q[..|q| - 1]); }
  }

  lemma {:induction false} DropBeforeLast(s: seq<nat>, b: nat, c: nat)
    requires Increasing(s + [b] + [c])
    ensures Increasing(s + [b]) && Increasing(s + [c]) && b < c
  {
    IncreasingSnoc(s + [b], c);
    assert forall i :: 0 <= i < |s| ==> (s + [b])[i] == s[i];
    assert (s + [b])[|s|] == b;
    IncreasingSnoc(s, b);
    IncreasingSnoc(s, c);
  }

  lemma {:induction false} AddAfterLast(s: seq<nat>, b: nat, c: nat)
    requires Increasing(s + [b]) && b < c
    ensures Increasing(s + [b] + [c])
  {
    assert (s + [b] + [c])[..|s| + 1] == s + [b];
  }

  lemma {:induction false} ParkedCallsAppend(kind: seq<Kind>, q: seq<Fut>, f: Fut, a: seq<nat>)
    requires AllReceivers(kind, q) && f < |kind| && kind[f].Receive?
    ensures AllReceivers(kind, q + [f])
    ensures a + ParkedCalls(kind, q + [f]) == (a + ParkedCalls(kind, q)) + [kind[f].call]
  {
  }

  lemma {:induction false} ParkedCallsSplit(kind: seq<Kind>, q: seq<Fut>, a: seq<nat>)
    requires AllReceivers(kind, q) && q != []
    ensures AllReceivers(kind, q[..|q| - 1]) && q[|q| - 1] < |kind| && kind[q[|q| - 1]].Receive?
    ensures a + ParkedCalls(kind, q) == (a + ParkedCalls(kind, q[..|q| - 1])) + [kind[q[|q| - 1]].call]
  {
  }

  lemma {:induction false} KeptInOrder(futures: seq<Outcome>, raising: set<Fut>, kind: seq<Kind>, q: seq<Fut>,
    a: seq<nat>, c: nat)
    requires |kind| == |futures| && AllReceivers(kind, q) && Increasing(a + ParkedCalls(kind, q) + [c])
    requires Below(q, |futures|) && AllReceivers(kind, Kept(futures, raising, q))
    ensures Increasing(a + ParkedCalls(kind, Kept(futures, raising, q)) + [c])
  {
    if q != [] {
      var f, p := q[|q| - 1], q[..|q| - 1];
      KeptReceivers(futures, raising, kind, p);
      var k := Kept(futures, raising, p);
      ParkedCallsSplit(kind, q, a);
      assert Below(p, |futures|);
      assert Kept(futures, raising, q) == if f !in raising && futures[f].Pending? then k + [f] else k;
      hide Increasing, ParkedCalls, Kept, AllReceivers, Below;
      DropBeforeLast(a + ParkedCalls(kind, p), kind[f].call, c);
      if f !in raising && futures[f].Pending? {
        KeptInOrder(futures, raising, kind, p, a, kind[f].call);
        ParkedCallsAppend(kind, k, f, a);
        AddAfterLast(a + ParkedCalls(kind, k), kind[f].call, c);
      } else {
        KeptInOrder(futures, raising, kind, p, a, c);
      }
    }
  }

  /** A sweep keeps the order of those it keeps. */
  lemma {:induction false} FairSweep(futures: seq<Outcome>, raising: set<Fut>, handed: seq<Handout>, kind: seq<Kind>,
    q: seq<Fut>, calls: nat)
    requires |kind| == |futures| && Fair(handed, kind, q, calls)
    ensures Below(q, |futures|) && Fair(handed, kind, Kept(futures, raising, q), calls)
  {
    KeptReceivers(futures, raising, kind, q);
    KeptInOrder(futures, raising, kind, q, HandedCalls(handed), calls);
  }

  /** Settling Futures, creating new ones and dropping receivers never adds waiting ones. */
  lemma {:induction false} WaitingShrinks(futures: seq<Outcome>, futures': seq<Outcome>, q: seq<Fut>, k: nat)
    requires Below(q, |futures|) && |futures| <= |futures'| && k <= |q|
    requires forall f :: 0 <= f < |futures| && futures'[f].Pending? ==> futures[f].Pending?
    ensures Below(q[k..], |futures'|) && Waiting(futures', q[k..]) <= Waiting(futures, q)
  {
    if k < |q| {
      var n := |q| - 1;
      WaitingShrinks(futures, futures', q[..n], k);
      assert q[k..][..n - k] == q[..n][k..];
    }
  }

  /** Queue length and sweep probes are bounded: `base` receivers survived the last
      sweep and `peak` is the largest number ever waiting at once. */
  ghost predicate Amortized(len: nat, sweepAt: nat, parks: nat, probes: nat, base: nat, peak: nat, waiting: nat) {
    && len <= sweepAt && RECV_SWEEP_MIN <= sweepAt <= Max(RECV_SWEEP_MIN, 2 * peak)
    && waiting <= peak
    && 2 * base <= sweepAt
    && probes <= 2 * parks && probes + 2 * len <= 2 * parks + 2 * base
  }

  // ---- what recv() calls got ----

  /** The answer of a recv() call. */
  datatype Received = Ready(message: bytes) | ConnectionClosed | NotBound | Parked(future: Fut)

  /** The message behind an answer: given at once, or by now the result of its Future. */
  ghost function Got(answer: Received, futures: seq<Outcome>): Option<bytes> {
    match answer
    case Ready(m) => Some(m)
    case Parked(f) => if f < |futures| && futures[f].Result? then futures[f].value else None
    case _ => None
  }

  /** The messages all calls got, in call order. */
  ghost function Collected(answers: seq<Received>, futures: seq<Outcome>): seq<bytes> {
    if answers == [] then []
    else
      var n := |answers| - 1;
      Collected(answers[..n], futures) + match Got(answers[n], futures) case Some(m) => [m] case None => []
  }

  /** Every hand-out reached its call, and nothing else did. */
  ghost predicate Told(futures: seq<Outcome>, kind: seq<Kind>, handed: seq<Handout>, answers: seq<Received>)
    requires |kind| == |futures|
  {
    && (forall f :: 0 <= f < |kind| && kind[f].Receive? ==>
      kind[f].call < |answers| && answers[kind[f].call] == Parked(f))
    && (forall c :: 0 <= c < |answers| && answers[c].Parked? ==>
          answers[c].future < |kind| && kind[answers[c].future] == Receive(c))
    && (forall c :: 0 <= c < |answers| && answers[c].Ready? ==> Handout(c, answers[c].message) in handed)
    && (forall f :: 0 <= f < |futures| && kind[f].Receive? && futures[f].Result? ==>
          futures[f].value.Some? && Handout(kind[f].call, futures[f].value.value) in handed)
    && (forall i :: 0 <= i < |handed| ==>
          handed[i].call < |answers| && Got(answers[handed[i].call], futures) == Some(handed[i].message))
  }

  lemma {:induction false} ToldFresh()
    ensures Told([Pending], [Handshake], [], [])
  {
  }

  /** Futures may be created and settled as long as no receiver's result changes. */
  lemma {:induction false} ToldUnchanged(
    futures: seq<Outcome>, futures': seq<Outcome>, kind: seq<Kind>, handed: seq<Handout>, answers: seq<Received>)
    requires |kind| == |futures| == |futures'| && Told(futures, kind, handed, answers)
    requires forall f :: 0 <= f < |futures| && kind[f].Receive? && (futures[f].Result? || futures'[f].Result?) ==>
               futures'[f] == futures[f]
    ensures Told(futures', kind, handed, answers)
  {
    forall i | 0 <= i < |handed| ensures Got(answers[handed[i].call], futures') == Some(handed[i].message) {
      assert Got(answers[handed[i].call], futures) == Some(handed[i].message);
    }
  }

  lemma {:induction false} ToldGrow(
    futures: seq<Outcome>, kind: seq<Kind>, handed: seq<Handout>, answers: seq<Received>, outcome: Outcome, k: Kind)
    requires |kind| == |futures| && Told(futures, kind, handed, answers) && !k.Receive?
    ensures Told(futures + [outcome], kind + [k], handed, answers)
  {
    forall i | 0 <= i < |handed| ensures Got(answers[handed[i].call], futures + [outcome]) == Some(handed[i].message) {
      assert Got(answers[handed[i].call], futures) == Some(handed[i].message);
    }
  }

  /** A parked receiver gets the message recorded for its call. */
  lemma {:induction false} ToldHandOut(
    futures: seq<Outcome>, kind: seq<Kind>, handed: seq<Handout>, answers: seq<Received>, f: Fut, h: Handout)
    requires |kind| == |futures| && Told(futures, kind, handed, answers)
    requires f < |futures| && futures[f].Pending? && kind[f] == Receive(h.call)
    ensures Told(futures[f := Result(Some(h.message))], kind, handed + [h], answers)
  {
    var futures', handed' := futures[f := Result(Some(h.message))], handed + [h];
    forall i | 0 <= i < |handed'|
      ensures handed'[i].call < |answers| && Got(answers[handed'[i].call], futures') == Some(handed'[i].message)
    {
      if i < |handed| {
        assert handed'[i] == handed[i] && Got(answers[handed[i].call], futures) == Some(handed[i].message);
      } else {
        assert handed'[i] == h && answers[h.call] == Parked(f);
      }
    }
  }

  /** A call answered with nothing. */
  lemma {:induction false} ToldNothing(
    futures: seq<Outcome>, kind: seq<Kind>, handed: seq<Handout>, answers: seq<Received>, answer: Received)
    requires |kind| == |futures| && Told(futures, kind, handed, answers) && !answer.Parked? && !answer.Ready?
    ensures Told(futures, kind, handed, answers + [answer])
  {
    var answers' := answers + [answer];
    assert forall c :: 0 <= c < |answers| ==> answers'[c] == answers[c];
    hide Got;
  }

  /** A call answered with a message at once. */
  lemma {:induction false} ToldReady(
    futures: seq<Outcome>, kind: seq<Kind>, handed: seq<Handout>, answers: seq<Received>, m: bytes)
    requires |kind| == |futures| && Told(futures, kind, handed, answers)
    ensures Told(futures, kind, handed + [Handout(|answers|, m)], answers + [Ready(m)])
  {
    var h := Handout(|answers|, m);
    var handed', answers' := handed + [h], answers + [Ready(m)];
    assert Got(Ready(m), futures) == Some(m);
    assert forall c :: 0 <= c < |answers| ==> answers'[c] == answers[c];
    assert forall i :: 0 <= i < |handed| ==> handed'[i] == handed[i];
    assert answers'[|answers|] == Ready(m) && handed'[|handed|] == h;
    hide Got;
    assert forall x :: x in handed ==> x in handed';
    assert h in handed';
  }

  lemma {:induction false} ToldPark(futures: seq<Outcome>, kind: seq<Kind>, handed: seq<Handout>,
    answers: seq<Received>)
    requires |kind| == |futures| && Told(futures, kind, handed, answers)
    ensures Told(futures + [Pending], kind + [Receive(|answers|)], handed, answers + [Parked(|futures|)])
  {
    var answers', futures' := answers + [Parked(|futures|)], futures + [Pending];
    assert forall c :: 0 <= c < |answers| ==> answers'[c] == answers[c];
    forall i | 0 <= i < |handed| ensures Got(answers'[handed[i].call], futures') == Some(handed[i].message) {
      assert Got(answers[handed[i].call], futures) == Some(handed[i].message);
    }
  }

  /** In a list of hand-outs in call order, a hand-out to the last call is the last. */
  lemma {:induction false} LastCallLast(handed: seq<Handout>, h: Handout)
    requires Increasing(HandedCalls(handed)) && h in handed
    requires forall i :: 0 <= i < |handed| ==> handed[i].call <= h.call
    ensures handed[|handed| - 1] == h
  {
    var j :| 0 <= j < |handed| && handed[j] == h;
    var n := |handed| - 1;
    if j < n { IncreasingAt(HandedCalls(handed), j, n); }
  }

  /** The hand-outs, in call order, are exactly the calls that got something. */
  ghost predicate Matches(handed: seq<Handout>, answers: seq<Received>, futures: seq<Outcome>) {
    && Increasing(HandedCalls(handed))
    && (forall i :: 0 <= i < |handed| ==>
          handed[i].call < |answers| && Got(answers[handed[i].call], futures) == Some(handed[i].message))
    && (forall c :: 0 <= c < |answers| && Got(answers[c], futures).Some? ==>
          Handout(c, Got(answers[c], futures).value) in handed)
  }

  lemma {:induction false} EarlierHanded(handed: seq<Handout>, h: Handout)
    requires h in handed && handed[|handed| - 1] != h
    ensures h in handed[..|handed| - 1]
  {
    var i :| 0 <= i < |handed| && handed[i] == h;
    assert handed[..|handed| - 1][i] == h;
  }

  lemma {:induction false} MatchesLast(handed: seq<Handout>, answers: seq<Received>, futures: seq<Outcome>)
    requires Matches(handed, answers, futures) && answers != [] && Got(answers[|answers| - 1], futures).Some?
    ensures var n, k := |answers| - 1, |handed| - 1;
            && k >= 0 && handed[k] == Handout(n, Got(answers[n], futures).value)
            && Matches(handed[..k], answers[..n], futures)
  {
    var n := |answers| - 1;
    var h := Handout(n, Got(answers[n], futures).value);
    LastCallLast(handed, h);
    var k := |handed| - 1;
    var earlier := handed[..k];
    assert HandedCalls(earlier) == HandedCalls(handed)[..k];
    IncreasingPrefix(HandedCalls(handed), k);
    forall i | 0 <= i < k ensures earlier[i].call < n { IncreasingAt(HandedCalls(handed), i, k); }
    hide Increasing, HandedCalls, Got;
    forall c | 0 <= c < n && Got(answers[..n][c], futures).Some?
      ensures Handout(c, Got(answers[..n][c], futures).value) in earlier
    {
      EarlierHanded(handed, Handout(c, Got(answers[c], futures).value));
    }
  }

  lemma {:induction false} MatchesSkip(handed: seq<Handout>, answers: seq<Received>, futures: seq<Outcome>)
    requires Matches(handed, answers, futures) && answers != [] && Got(answers[|answers| - 1], futures).None?
    ensures Matches(handed, answers[..|answers| - 1], futures)
  {
    hide Increasing, HandedCalls, Got;
    var n := |answers| - 1;
    forall i | 0 <= i < |handed| ensures handed[i].call < n {
      assert Got(answers[handed[i].call], futures) == Some(handed[i].message);
    }
  }

  lemma {:induction false} CollectedMatches(handed: seq<Handout>, answers: seq<Received>, futures: seq<Outcome>)
    requires Matches(handed, answers, futures)
    ensures Collected(answers, futures) == Messages(handed)
    decreases |answers|
  {
    if answers == [] {
      assert handed == [];
    } else {
      hide Matches, Got;
      var n, k := |answers| - 1, |handed| - 1;
      if Got(answers[n], futures).Some? {
        MatchesLast(handed, answers, futures);
        CollectedMatches(handed[..k], answers[..n], futures);
        assert handed == handed[..k] + [handed[k]];
        MessagesAppend(handed[..k], handed[k]);
      } else {
        MatchesSkip(handed, answers, futures);
        CollectedMatches(handed, answers[..n], futures);
      }
    }
  }

  lemma {:induction false} IncreasingPrefix(s: seq<nat>, k: nat)
    requires Increasing(s) && k <= |s|
    ensures Increasing(s[..k])
  {
    if k < |s| {
      IncreasingPrefix(s[..|s| - 1], k);
      assert s[..|s| - 1][..k] == s[..k];
    } else {
      assert s[..k] == s;
    }
  }

  /** What the calls got, in call order, is what was handed out, in hand-out order. */
  lemma {:induction false} CollectedIsHanded(
    futures: seq<Outcome>, kind: seq<Kind>, handed: seq<Handout>, q: seq<Fut>, answers: seq<Received>)
    requires |kind| == |futures| && Told(futures, kind, handed, answers) && Fair(handed, kind, q, |answers|)
    ensures Collected(answers, futures) == Messages(handed)
  {
    var s := HandedCalls(handed) + ParkedCalls(kind, q) + [|answers|];
    assert s[..|handed|] == HandedCalls(handed);
    IncreasingPrefix(s, |handed|);
    forall c | 0 <= c < |answers| && Got(answers[c], futures).Some?
      ensures Handout(c, Got(answers[c], futures).value) in handed
    {
      if answers[c].Parked? { assert kind[answers[c].future] == Receive(c); }
    }
    CollectedMatches(handed, answers, futures);
  }

  lemma {:induction false} MessagesAppend(handed: seq<Handout>, h: Handout)
    ensures Messages(handed + [h]) == Messages(handed) + [h.message]
  {
  }

  /** No receiver is parked twice. */
  lemma {:induction false} FairDistinct(handed: seq<Handout>, kind: seq<Kind>, q: seq<Fut>, calls: nat, i: nat, j: nat)
    requires Fair(handed, kind, q, calls) && i < j < |q|
    ensures q[i] != q[j]
  {
    var s := HandedCalls(handed) + ParkedCalls(kind, q) + [calls];
    var n := |handed|;
    assert s[n + i] == kind[q[i]].call && s[n + j] == kind[q[j]].call;
    IncreasingAt(s, n + i, n + j);
  }
}
