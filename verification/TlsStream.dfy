/**
 The pump in front of the client: releasing plaintext frame by frame changes
 neither what the client does nor when it can do it.
 */
module TlsStream {
  import opened Common
  import opened Codec
  import opened Protocol
  import opened FastPath
  import opened ClientFrame
  import opened PlaintextPump
  import opened Receive
  import opened TlsTransport
  import D = Delivery
  import Mailbox

  /** A complete header is found in any prefix that contains it. */
  lemma {:induction false} ParseHeaderPrefix(d: bytes, n: nat)
    requires ParseHeader(d).Some? && ParseHeader(d).value.hdr <= n <= |d|
    ensures ParseHeader(d[..n]) == ParseHeader(d)
  {
    hide BigEndian;
    if n >= 4 { assert d[..n][2..4] == d[2..4]; }
    if n >= 10 { assert d[..n][2..10] == d[2..10]; }
  }

  lemma {:induction false} FindHeaderEndPrefix(d: bytes)
    requires FindHeaderEnd(d).Some?
    ensures FindHeaderEnd(d[..FindHeaderEnd(d).value]) == FindHeaderEnd(d)
  {
    var e := FindHeaderEnd(d).value;
    var p := d[..e];
    FindHeaderEndIsFirst(d);
    FindHeaderEndIsFirst(p);
    assert EndsHere(p, e - 4);
    hide FindHeaderEnd;
    var e' := FindHeaderEnd(p).value;
    assert EndsHere(d, e' - 4);
  }

  /** A run that has taken whole steps up to its last byte. */
  ghost predicate Finished(o: Outcome) { Halted(o) || (o.rest == [] && o.core.handshakeDone) }

  /** One whole unmasked frame is one step of the client, whatever its state. */
  lemma {:induction false} WholeFrame(env: Env, c: Core, d: bytes)
    requires c.handshakeDone && |d| >= 2 && d[1] < 128 && WebsocketFrameLen(d) == Ok(Some(|d|))
    ensures Finished(Run(env, c, d))
  {
    FrameLenMatchesHeader(d);
    hide ParseHeader, WebsocketFrameLen;
    var h := ParseHeader(d).value;
    var s := Step1(env, c, d);
    assert h.hdr + h.plen == |d|;
    if Continues(s) {
      WholeFrameStep(env, c, h, d[h.hdr..h.hdr + h.plen]);
      assert d[s.taken..] == [];
      NothingToDo(env, s.core);
      RunUnfold(env, s.core, [], Step1(env, s.core, []));
    }
    RunUnfold(env, c, d, s);
  }

  lemma {:induction false} WholeFrameStep(env: Env, c: Core, h: Header, payload: bytes)
    requires |payload| == h.plen && c.handshakeDone
    ensures var s := FrameStep(env, c, h, payload);
            Continues(s) ==> s.taken == h.hdr + h.plen && s.core.handshakeDone
  {
  }

  /** Up to any boundary the client has consumed every byte, or has ended the connection. */
  lemma {:induction false} BoundaryFinished(env: Env, offered: bool, s: bytes, b: nat)
    requires Boundary(s, b) && b <= |s| && Unmasked(s)
    ensures Finished(Run(env, InitCore(offered), s[..b]))
    decreases b
  {
    if FindHeaderEnd(s) == Some(b) {
      HeaderFinished(env, offered, s);
    } else {
      var a :| 0 <= a < b <= |s| && Boundary(s, a) && LenAt(s, a) == Ok(Some(b - a));
      BoundaryFinished(env, offered, s, a);
      FrameAfter(env, offered, s, a, b);
    }
  }

  lemma {:induction false} HeaderFinished(env: Env, offered: bool, s: bytes)
    requires FindHeaderEnd(s).Some?
    ensures Finished(Run(env, InitCore(offered), s[..FindHeaderEnd(s).value]))
  {
    FindHeaderEndPrefix(s);
    hide FindHeaderEnd;
    var d := s[..FindHeaderEnd(s).value];
    var c := InitCore(offered);
    var st := Step1(env, c, d);
    RunUnfold(env, c, d, st);
    if Continues(st) {
      assert d[st.taken..] == [];
      NothingToDo(env, st.core);
      RunUnfold(env, st.core, [], Step1(env, st.core, []));
    }
  }

  lemma {:induction false} FrameAfter(env: Env, offered: bool, s: bytes, a: nat, b: nat)
    requires a < b <= |s| && Boundary(s, a) && LenAt(s, a) == Ok(Some(b - a)) && Unmasked(s)
    requires Finished(Run(env, InitCore(offered), s[..a]))
    ensures Finished(Run(env, InitCore(offered), s[..b]))
  {
    hide Boundary, Run, Step1, WebsocketFrameLen;
    var o, d := Run(env, InitCore(offered), s[..a]), s[a..b];
    assert s[..b] == s[..a] + d;
    RunSplit(env, InitCore(offered), s[..a], d);
    if !Halted(o) {
      FrameLenPrefix(s[a..], b - a);
      assert s[a..][..b - a] == d;
      assert o.rest + d == d;
      WholeFrame(env, o.core, d);
      FinishedPrepend(o.events, Run(env, o.core, d));
    }
  }

  lemma {:induction false} FinishedPrepend(es: seq<Event>, o: Outcome)
    requires Finished(o)
    ensures Finished(Prepend(es, o))
  {
  }

  lemma {:induction false} FrameLenPrefix(d: bytes, n: nat)
    requires n <= |d| && WebsocketFrameLen(d) == Ok(Some(n))
    ensures n >= 2 && WebsocketFrameLen(d[..n]) == Ok(Some(n))
  {
    FrameLenMatchesHeader(d);
    var h := ParseHeader(d).value;
    ParseHeaderPrefix(d, n);
    FrameLenMatchesHeader(d[..n]);
    hide ParseHeader, WebsocketFrameLen;
  }

  /** Bytes the drained pump still holds cannot cause an event yet. */
  lemma {:induction false} NothingHeldBack(env: Env, offered: bool, f: Flow)
    requires Sound(f) && Drained(f) && Unmasked(f.read)
    ensures Run(env, InitCore(offered), Flatten(f.chunks)).events == Run(env, InitCore(offered), f.read).events
  {
    var c, s := InitCore(offered), Flatten(f.chunks);
    assert f.read == s + f.pending;
    RunSplit(env, c, s, f.pending);
    var o := Run(env, c, s);
    if f.pending == [] {
      assert s + [] == s;
    } else if !f.started {
      assert s == [] && f.read == f.pending;
      NothingToDo(env, c);
      RunUnfold(env, c, [], Step1(env, c, []));
      RunUnfold(env, c, f.read, Step1(env, c, f.read));
    } else if !Halted(o) {
      assert f.read[..f.at] == s;
      BoundaryFinished(env, offered, f.read, f.at);
      FrameLenMatchesHeader(f.pending);
      hide Run, Sound, Boundary, WebsocketFrameLen;
      assert o.rest + f.pending == f.pending;
      RunUnfold(env, o.core, f.pending, Step1(env, o.core, f.pending));
    }
  }

  // ---- whole runs ----

  datatype PumpOp = Ciphertext(packets: seq<Packet>) | Pause | Resume | Shut

  ghost predicate OpOk(op: PumpOp) {
    op.Ciphertext? ==> forall p :: p in op.packets && p.Records? ==> |p.data| <= p.want
  }

  /** All plaintext the operations decrypt. */
  ghost function Decrypted(ops: seq<PumpOp>): bytes {
    if ops == [] then []
    else Decrypted(ops[..|ops| - 1]) + DecryptedBy(ops[|ops| - 1])
  }

  ghost function DecryptedBy(op: PumpOp): bytes {
    if op.Ciphertext? then Flatten(DataOf(op.packets)) else []
  }

  lemma {:induction false} DecryptedNext(ops: seq<PumpOp>, i: nat)
    requires i < |ops|
    ensures Decrypted(ops[..i + 1]) == Decrypted(ops[..i]) + DecryptedBy(ops[i])
  {
    assert ops[..i + 1][..i] == ops[..i];
  }

  /** A drained pump holds at most an incomplete HTTP block or an incomplete frame header. */
  lemma {:induction false} PendingSmall(f: Flow)
    requires Sound(f) && Drained(f)
    ensures |f.pending| <= if f.started then 9 else 0x1_0000
  {
    if f.started && f.pending != [] { FrameLenMatchesHeader(f.pending); }
    hide ChunksInFrames, Boundary, Flatten, FindHeaderEnd, LenAt, WebsocketFrameLen;
  }

  /** So without a pause no read of up to 960 KiB of plaintext exceeds the bound. */
  lemma {:induction false} ReadFits(f: Flow, packets: seq<Packet>)
    requires Sound(f) && Drained(f)
    requires forall i :: 0 <= i < |packets| ==>
               packets[i].Records? && |Flatten(DataOf(packets[..i]))| + packets[i].want <= 0xF_0000
    ensures Misfit(|f.pending|, packets, 0).None?
  {
    PendingSmall(f);
    MisfitIff(|f.pending|, packets, 0);
    hide Sound, Drained, Flatten, DataOf, Misfit;
  }

  /** An operation that ends an open transport with this flow: a requested close, a round that
      is a TLS error or does not fit in 1 MiB, or the peer's close. */
  ghost predicate Ends(f: Flow, op: PumpOp) {
    || op.Shut?
    || (op.Ciphertext? && (Misfit(|f.pending|, op.packets, 0).Some? || PeerCloses(op.packets)))
  }

  method Perform(pump: RustlsTransport, op: PumpOp) returns (r: Result<(), PumpError>)
    requires pump.Valid() && pump.box.Valid() && OpOk(op) && (!pump.closing && pump.peerClosed ==> pump.readPaused)
    requires !pump.closing && !pump.readPaused ==> Drained(pump.View())
    modifies pump, pump.inner, pump.box
    ensures pump.Valid() && pump.box.Valid() && old(pump.View()).chunks <= pump.View().chunks
    ensures old(pump.closing) ==>
              && pump.closing && pump.box.View() == old(pump.box.View()) && r.Ok?
              && Quit(pump.inner, pump.reacts, pump.handled) == old(Quit(pump.inner, pump.reacts, pump.handled))
    ensures || pump.box.View() == old(pump.box.View())
            || (!old(pump.closing) && pump.closing && pump.box.View() == D.FailTls(old(pump.box.View())))
    ensures !pump.closing ==> !old(pump.closing) && pump.View().read == old(pump.View()).read + DecryptedBy(op)
    ensures r.Ok? && !pump.closing && !pump.readPaused ==> Drained(pump.View())
    ensures old(pump.readPaused) && !op.Resume? ==> pump.View().chunks == old(pump.View()).chunks
    ensures !old(pump.closing) && pump.closing ==>
              || Quit(pump.inner, pump.reacts, pump.handled) || Ends(old(pump.View()), op)
              || (old(pump.peerClosed) && op.Resume?)
    ensures !old(pump.closing) && Ends(old(pump.View()), op) && r.Ok? ==>
              pump.closing || (pump.peerClosed && pump.readPaused)
    ensures r.Ok? && !pump.closing && pump.peerClosed ==> pump.readPaused
    ensures !pump.closing ==>
              (pump.peerClosed <==> old(pump.peerClosed) || (op.Ciphertext? && PeerCloses(op.packets)))
    ensures r.Err? ==> if pump.closing then r.error == ProbeRaised
                       else !pump.readPaused && Refused(pump.View()) == Some(r.error)
    ensures pump.readPaused ==>
              || old(pump.readPaused) || op.Pause?
              || (pump.handled > 0 && pump.reacts(pump.handled - 1).pause)
  {
    hide Sound, Flatten, Drained, DataOf, Tracks, Tail, ChunksInFrames, D.Sound, D.FailTls, Misfit, PeerCloses;
    hide Quit, Refused;
    r := Ok(());
    assert pump.View().read + [] == pump.View().read;
    match op
    case Ciphertext(packets) => r := pump.DataReceived(packets);
    case Pause => pump.PauseReading();
    case Resume => r := pump.ResumeReading();
    case Shut => pump.Close();
  }

  /** The flow before each operation performed on the open transport. */
  ghost predicate Traced(trace: seq<Flow>, ops: seq<PumpOp>, chunks: seq<bytes>) {
    && |trace| <= |ops|
    && forall k :: 0 <= k < |trace| ==>
         Sound(trace[k]) && trace[k].read == Decrypted(ops[..k]) && trace[k].chunks <= chunks
  }

  ghost predicate SomeEnd(trace: seq<Flow>, ops: seq<PumpOp>) {
    exists k :: 0 <= k < |trace| && k < |ops| && Ends(trace[k], ops[k])
  }

  ghost predicate AsksPause(reacts: nat -> Reaction, n: nat) { exists i: nat :: i < n && reacts(i).pause }

  lemma {:induction false} TraceNext(trace: seq<Flow>, ops: seq<PumpOp>, f: Flow, chunks: seq<bytes>)
    requires Traced(trace, ops, f.chunks) && |trace| < |ops| && f.chunks <= chunks
    requires Sound(f) && f.read == Decrypted(ops[..|trace|])
    ensures Traced(trace + [f], ops, chunks)
    ensures SomeEnd(trace + [f], ops) <==> SomeEnd(trace, ops) || Ends(f, ops[|trace|])
  {
    hide Sound, Decrypted, Ends;
    var now := trace + [f];
    if SomeEnd(trace, ops) {
      var k :| 0 <= k < |trace| && k < |ops| && Ends(trace[k], ops[k]);
      assert now[k] == trace[k];
    }
    if Ends(f, ops[|trace|]) { assert now[|trace|] == f; }
  }

  /** What holds between operations of a run. */
  ghost predicate RunSoFar(pump: RustlsTransport, ops: seq<PumpOp>, i: nat, trace: seq<Flow>, before: D.Box)
    requires i <= |ops| && D.Sound(before)
    reads pump, pump.inner, pump.box
  {
    var quit := Quit(pump.inner, pump.reacts, pump.handled);
    && pump.Valid() && pump.box.Valid() && Traced(trace, ops, pump.View().chunks)
    && (pump.box.View() == before || (pump.closing && pump.box.View() == D.FailTls(before)))
    && (!pump.closing ==> |trace| == i && pump.View().read == Decrypted(ops[..i]))
    && (pump.closing ==> quit || SomeEnd(trace, ops))
    && (!pump.closing && pump.peerClosed ==> SomeEnd(trace, ops))
    && (pump.readPaused ==> Pause in ops[..i] || AsksPause(pump.reacts, pump.handled))
  }

  /** The last operation went well: what could be released was, and an end was acted on. */
  ghost predicate Settled(pump: RustlsTransport, ops: seq<PumpOp>, trace: seq<Flow>)
    requires pump.used <= |pump.plaintext|
    reads pump
  {
    && (!pump.closing && !pump.readPaused ==> Drained(pump.View()))
    && (!pump.closing && pump.peerClosed ==> pump.readPaused)
    && (!pump.closing && SomeEnd(trace, ops) ==> pump.peerClosed)
  }

  method Step(pump: RustlsTransport, ops: seq<PumpOp>, i: nat, ghost trace: seq<Flow>, ghost before: D.Box)
    returns (r: Result<(), PumpError>, ghost trace': seq<Flow>)
    requires i < |ops| && OpOk(ops[i]) && D.Sound(before) && RunSoFar(pump, ops, i, trace, before)
    requires Settled(pump, ops, trace)
    modifies pump, pump.inner, pump.box
    ensures RunSoFar(pump, ops, i + 1, trace', before)
    ensures r.Ok? ==> Settled(pump, ops, trace')
    ensures r.Err? ==> if pump.closing then r.error == ProbeRaised
                       else !pump.readPaused && Refused(pump.View()) == Some(r.error)
  {
    hide Sound, Flatten, Drained, DataOf, Tracks, Tail, ChunksInFrames, D.Sound, D.FailTls, Misfit, PeerCloses;
    hide Refused, Traced, SomeEnd, Decrypted, DecryptedBy, OpOk;
    DecryptedNext(ops, i);
    ghost var f, closed := pump.View(), pump.closing;
    assert ops[..i + 1] == ops[..i] + [ops[i]];
    r := Perform(pump, ops[i]);
    trace' := if closed then trace else trace + [f];
    if closed {
      TracedMore(trace, ops, f.chunks, pump.View().chunks);
    } else {
      TraceNext(trace, ops, f, pump.View().chunks);
    }
  }

  lemma {:induction false} TracedMore(trace: seq<Flow>, ops: seq<PumpOp>, before: seq<bytes>, chunks: seq<bytes>)
    requires Traced(trace, ops, before) && before <= chunks
    ensures Traced(trace, ops, chunks)
  {
    hide Sound, Decrypted;
  }

  lemma {:induction false} EmptyTrace(ops: seq<PumpOp>)
    ensures Traced([], ops, []) && !SomeEnd([], ops) && Decrypted(ops[..0]) == []
  {
  }

  method PerformAll(pump: RustlsTransport, ops: seq<PumpOp>)
    returns (r: Result<(), PumpError>, ghost trace: seq<Flow>)
    requires pump.Valid() && pump.box.Valid() && pump.View() == Empty()
    requires !pump.closing && !pump.readPaused && !pump.peerClosed
    requires forall op :: op in ops ==> OpOk(op)
    modifies pump, pump.inner, pump.box
    ensures r.Ok? ==> RunSoFar(pump, ops, |ops|, trace, old(pump.box.View())) && Settled(pump, ops, trace)
    ensures r.Err? ==> exists i :: 0 <= i <= |ops| && RunSoFar(pump, ops, i, trace, old(pump.box.View()))
    ensures r.Err? ==> if pump.closing then r.error == ProbeRaised
                       else !pump.readPaused && Refused(pump.View()) == Some(r.error)
  {
    ghost var before := pump.box.View();
    EmptyTrace(ops);
    assert Drained(Empty());
    hide Sound, Flatten, Drained, DataOf, Tracks, Tail, ChunksInFrames, D.Sound, D.FailTls, Misfit, PeerCloses, OpOk;
    hide Refused, Traced, SomeEnd, Decrypted, DecryptedBy;
    r, trace := Ok(()), [];
    assert RunSoFar(pump, ops, 0, [], before) && Settled(pump, ops, []);
    hide RunSoFar, Settled;
    for i := 0 to |ops|
      invariant RunSoFar(pump, ops, i, trace, before) && Settled(pump, ops, trace) && r.Ok?
    {
      assert ops[i] in ops;
      r, trace := Step(pump, ops, i, trace, before);
      if r.Err? { return; }
    }
  }

  /**
   Every run of the TLS transport: reads of any ciphertext, pauses, resumes and closing
   by the application at any point, also while it handles a chunk.
   - What the client has done is what one run over the bytes released does.
   - While the transport is open and no call has failed, the bytes released and pending are
     exactly the plaintext decrypted; if it is not paused either, the client has done what
     one run over all of that plaintext does.
   - It closes only because the client or the application closed, or an operation ends it;
     unless a call failed or reading is paused, it closes exactly then.
   - A call fails only on a handshake or frame that is too long, or because the probe of the
     handshake Future raised; reading is paused only on request.
   - The client's queues are untouched, except that a failure takes the handshake Future, once.
   */
  method Serve(client: NativeClient, box: Mailbox.State, reacts: nat -> Reaction, ops: seq<PumpOp>)
    returns (pump: RustlsTransport, r: Result<(), PumpError>, ghost trace: seq<Flow>)
    requires box.Valid()
    requires client.Idle() && client.recvBuf == [] && client.stream == [] && client.fx == NO_EFFECTS
    requires forall op :: op in ops ==> OpOk(op)
    modifies client, box
    ensures pump.inner == client && pump.box == box && pump.reacts == reacts && pump.Valid() && box.Valid()
    ensures box.View() == old(box.View()) || (pump.closing && box.View() == D.FailTls(old(box.View())))
    ensures client.fx == Project(Run(client.env, InitCore(client.offered), Flatten(pump.View().chunks)).events)
    ensures r.Ok? && !pump.closing ==> Flatten(pump.View().chunks) + pump.View().pending == Decrypted(ops)
    ensures r.Ok? && !pump.closing && !pump.readPaused && Unmasked(Decrypted(ops)) ==>
              client.fx == Project(Run(client.env, InitCore(client.offered), Decrypted(ops)).events)
    ensures Traced(trace, ops, pump.View().chunks)
    ensures pump.closing ==> Quit(client, reacts, pump.handled) || SomeEnd(trace, ops)
    ensures r.Ok? && !pump.readPaused ==>
              (pump.closing <==> Quit(client, reacts, pump.handled) || SomeEnd(trace, ops))
    ensures r.Err? ==> if pump.closing then r.error == ProbeRaised else Refused(pump.View()) == Some(r.error)
    ensures pump.readPaused ==> Pause in ops || AsksPause(reacts, pump.handled)
  {
    hide Sound, Flatten, Drained, Tracks, Tail, ChunksInFrames, Run, Project, Decrypted, D.Sound, D.FailTls;
    hide Refused, Traced, SomeEnd, AsksPause;
    FreshClient(client);
    pump := new RustlsTransport(client, box, reacts);
    r, trace := PerformAll(pump, ops);
    assert ops[..|ops|] == ops;
    RunOutcome(pump);
  }

  lemma {:induction false} RunOutcome(pump: RustlsTransport)
    requires pump.Valid()
    ensures var f, c := pump.View(), pump.inner;
            && c.fx == Project(Run(c.env, InitCore(c.offered), Flatten(f.chunks)).events)
            && Flatten(f.chunks) + f.pending == f.read
            && (Drained(f) && Unmasked(f.read) ==> c.fx == Project(Run(c.env, InitCore(c.offered), f.read).events))
  {
    var f, c := pump.View(), pump.inner;
    hide Run, Project, Unmasked, Drained, ChunksInFrames, AtFrame, Flatten;
    if Drained(f) && Unmasked(f.read) { NothingHeldBack(c.env, c.offered, f); }
  }

  lemma {:induction false} FreshClient(client: NativeClient)
    requires client.Idle() && client.recvBuf == [] && client.stream == [] && client.fx == NO_EFFECTS
    ensures Tracks(client, []) && Drained(Empty())
  {
    var env, c := client.env, InitCore(client.offered);
    NothingToDo(env, c);
    RunUnfold(env, c, [], Step1(env, c, []));
  }
}
