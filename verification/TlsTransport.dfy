/**
 The TLS transport in front of the client: decrypted bytes go through the pump,
 and every released chunk is handed to the client at once.
 */
module TlsTransport {
  import opened Common
  import opened Protocol
  import opened FastPath
  import opened PlaintextPump
  import opened Receive
  import D = Delivery
  import Mailbox

  // ---- the client behind the pump ----

  /** The client has done everything the bytes `fed` call for, and nothing else. */
  ghost predicate Tracks(c: NativeClient, fed: bytes)
    reads c
  {
    && c.fx == Project(Run(c.env, InitCore(c.offered), fed).events)
    && (c.fx.terminal.None? ==> c.Idle() && c.recvBuf == [] && c.stream == fed)
  }

  /** One chunk of plaintext; after a terminal event nothing more happens. */
  method DataReceivedPlaintext(c: NativeClient, chunk: bytes, ghost fed: bytes)
    requires Tracks(c, fed)
    modifies c
    ensures Tracks(c, fed + chunk)
  {
    hide Run, Step1, Project, Join, WalkFrom;
    if c.fx.terminal.Some? {
      HaltedForGood(c.env, InitCore(c.offered), fed, chunk);
      return;
    }
    c.DataReceivedPlaintext(chunk);
    if c.fx.terminal.None? {
      assert c.Idle();
      IdleEffects(c.env, c.State(), c.buf + c.recvBuf, c.fx);
    }
  }

  // ---- the transport ----

  /** One round of TLS processing: plaintext announced and delivered, and whether the
      peer's close has been seen; or an error. */
  datatype Packet = Records(want: nat, data: bytes, peerClosed: bool) | TlsError

  datatype Ending = Open | Closed | Aborted(error: PumpError)

  /** What the application does while the client handles a chunk. */
  datatype Reaction = Reaction(pause: bool, close: bool)

  /** The client closes after a peer Close or a protocol error, the application when it likes. */
  ghost predicate Quit(c: NativeClient, reacts: nat -> Reaction, n: nat)
    reads c
  {
    || (c.fx.terminal.Some? && !c.fx.terminal.value.Rejected?)
    || exists i: nat :: i < n && reacts(i).close
  }

  /** The probe of the handshake Future raises. */
  ghost predicate Raises(box: Mailbox.State)
    reads box
  {
    box.handshakeFut.Some? && box.handshakeFut.value in box.raising
  }

  /** Round `i` is no TLS error, and what it announces fits in 1 MiB behind the `n` bytes
      pending and the plaintext of the rounds before it. */
  ghost predicate RoundFits(n: nat, packets: seq<Packet>, i: nat)
    requires i < |packets|
  {
    && packets[i].Records?
    && (packets[i].want > 0 ==> n + |Flatten(DataOf(packets[..i]))| + packets[i].want <= 0x10_0000)
  }

  /** The error of the first round, from `i` on, that does not fit. */
  ghost function Misfit(n: nat, packets: seq<Packet>, i: nat): Option<PumpError>
    requires i <= |packets|
    decreases |packets| - i
  {
    if i == |packets| then None
    else if RoundFits(n, packets, i) then Misfit(n, packets, i + 1)
    else Some(if packets[i].TlsError? then TlsFailure else CapacityExceeded)
  }

  lemma {:induction false} MisfitIff(n: nat, packets: seq<Packet>, i: nat)
    requires i <= |packets|
    ensures Misfit(n, packets, i).None? <==> forall j :: i <= j < |packets| ==> RoundFits(n, packets, j)
    decreases |packets| - i
  {
    hide RoundFits;
    if i < |packets| { MisfitIff(n, packets, i + 1); }
  }

  /** The peer's TLS close is among the rounds. */
  ghost predicate PeerCloses(packets: seq<Packet>) { exists p :: p in packets && p.Records? && p.peerClosed }

  class RustlsTransport {
    const inner: NativeClient
    const box: Mailbox.State

    var plaintext: bytes
    var used: nat
    var websocketMode: bool
    var frameRemaining: Option<nat>
    var closing: bool
    var readPaused: bool
    var peerClosed: bool
    var ending: Ending

    // The application, chunk by chunk.
    const reacts: nat -> Reaction
    var handled: nat

    ghost var past: Flow       // history; the other fields are those above
    ghost var pausedAt: nat    // chunks released when the pause was raised

    ghost function View(): Flow
      requires used <= |plaintext|
      reads this
    {
      past.(pending := Tail(plaintext, used), started := websocketMode, remaining := frameRemaining)
    }

    ghost predicate Valid()
      reads this, inner
    {
      && used <= |plaintext|
      && Sound(View())
      && (readPaused ==> pausedAt == |View().chunks|)
      && (!closing ==> ending.Open?) && (Quit(inner, reacts, handled) ==> closing)
      && handled == |View().chunks|
      && Tracks(inner, Flatten(View().chunks))
    }

    constructor (client: NativeClient, box: Mailbox.State, reacts: nat -> Reaction)
      requires Tracks(client, []) && !Quit(client, reacts, 0)
      ensures inner == client && this.box == box && this.reacts == reacts
      ensures Valid() && !closing && !readPaused && !peerClosed && View() == Empty()
    {
      inner, this.box, this.reacts, handled := client, box, reacts, 0;
      plaintext, used, websocketMode, frameRemaining := [], 0, false, None;
      closing, readPaused, peerClosed, ending := false, false, false, Open;
      past, pausedAt := Empty(), 0;
      new;
      EmptyView(past);
      NoChunks([]);
      hide *;
    }

    /** Take in one round of plaintext behind what is pending, compacting first. */
    method TakeIn(want: nat, data: bytes) returns (ok: bool)
      requires Valid() && |data| <= want
      modifies this`plaintext, this`used, this`past
      ensures Valid()
      ensures ok <==> |old(View()).pending| + want <= MAX_PENDING_PLAINTEXT
      ensures View() == if ok then Absorb(old(View()), data) else old(View())
    {
      hide Sound, Tracks, Flatten;
      ghost var f := View();
      var pending := |plaintext| - used;
      if pending + want > MAX_PENDING_PLAINTEXT { return false; }
      if used > 0 {
        plaintext := plaintext[used..];
        used := 0;
      }
      assert plaintext == f.pending;
      plaintext := plaintext + data;
      AbsorbSound(f, data);
      past := Absorb(f, data);
      return true;
    }

    /** Hand one chunk to the client. The application may pause reading or close in reaction,
        and the client closes after a peer close or a protocol error. */
    method Forward(chunk: bytes, ghost before: seq<bytes>)
      requires used <= |plaintext| && View().chunks == before + [chunk] && Tracks(inner, Flatten(before))
      requires !readPaused && !closing && !Quit(inner, reacts, handled) && handled == |before|
      modifies inner, this`handled, this`readPaused, this`pausedAt, this`closing, this`ending
      ensures Tracks(inner, Flatten(View().chunks)) && handled == |View().chunks|
      ensures readPaused ==> pausedAt == |View().chunks|
      ensures closing <==> Quit(inner, reacts, handled)
      ensures readPaused <==> reacts(handled - 1).pause
      ensures ending == if closing then Closed else old(ending)
    {
      hide Tracks;
      FlattenSnoc(before, chunk);
      DataReceivedPlaintext(inner, chunk, Flatten(before));
      var reaction := reacts(handled);
      handled := handled + 1;
      if reaction.pause { PauseReading(); }
      if inner.fx.terminal.Some? && !inner.fx.terminal.value.Rejected? { Close(); }
      if reaction.close { Close(); }
    }

    /** Release whole frames, or the available part of one, until paused, closed or out of bytes;
        fails exactly at a handshake or a frame that is too long. */
    method DrainPlaintext() returns (r: Result<(), PumpError>)
      requires Valid()
      modifies this`plaintext, this`used, this`websocketMode, this`frameRemaining, this`past, this`handled,
               this`readPaused, this`pausedAt, this`closing, this`ending, inner
      ensures Valid() && View().read == old(View()).read && old(View()).chunks <= View().chunks
      ensures old(closing) || old(readPaused) ==>
        View() == old(View()) && r.Ok? && closing == old(closing) && readPaused == old(readPaused)
        && ending == old(ending)
      ensures !old(closing) ==> (closing <==> Quit(inner, reacts, handled))
      ensures !old(closing) ==> ending == if closing then Closed else Open
      ensures !old(closing) && !old(readPaused) ==>
        (readPaused <==> handled > old(handled) && reacts(handled - 1).pause)
      ensures r.Ok? && !closing && !readPaused ==> Drained(View())
      ensures r.Err? ==> !closing && !readPaused && Refused(View()) == Some(r.error)
    {
      hide Sound, TakeSize, Flatten, Tracks, Quit, Refused;
      while true
        invariant Valid() && View().read == old(View()).read && old(View()).chunks <= View().chunks
        invariant old(closing) || old(readPaused) ==>
                    View() == old(View()) && closing == old(closing) && readPaused == old(readPaused)
                    && ending == old(ending)
        invariant !old(closing) ==> (closing <==> Quit(inner, reacts, handled))
        invariant !old(closing) ==> ending == if closing then Closed else Open
        invariant !old(closing) && !old(readPaused) ==>
                    (readPaused <==> handled > old(handled) && reacts(handled - 1).pause)
        decreases |View().pending|
      {
        ghost var f := View();
        if closing || readPaused || used == |plaintext| {
          if used == |plaintext| {
            plaintext, used := [], 0;
            NothingPending(f.started, f.remaining);
          }
          return Ok(());
        }
        match TakeSize(plaintext[used..], websocketMode, frameRemaining) {
          case Err(e) =>
            RefusedIff(f);
            return Err(e);
          case Ok(None) => return Ok(());
          case Ok(Some(take)) =>
            ReleaseSound(f, take);
            ReleaseChunk(take);
        }
      }
    }

    method ReleaseChunk(take: nat)
      requires used <= |plaintext| && CanRelease(View(), take) && take <= |View().pending| && !closing && !readPaused
      requires Tracks(inner, Flatten(View().chunks)) && handled == |View().chunks|
      requires !Quit(inner, reacts, handled)
      modifies this`used, this`websocketMode, this`frameRemaining, this`past, this`handled,
               this`readPaused, this`pausedAt, this`closing, this`ending, inner
      ensures used <= |plaintext| && View() == Release(old(View()), take) && handled == |View().chunks|
      ensures old(View()).chunks <= View().chunks && handled == old(handled) + 1
      ensures Tracks(inner, Flatten(View().chunks)) && (readPaused ==> pausedAt == |View().chunks|)
      ensures closing <==> Quit(inner, reacts, handled)
      ensures readPaused <==> reacts(handled - 1).pause
      ensures ending == if closing then Closed else old(ending)
    {
      hide Release, CanRelease, Tail, Tracks, Flatten, Quit;
      ghost var before := View().chunks;
      var chunk := Advance(take);
      Forward(chunk, before);
    }

    /** Move past the next chunk, tracking what is left of its frame. */
    method Advance(take: nat) returns (chunk: bytes)
      requires used <= |plaintext| && CanRelease(View(), take) && take <= |View().pending|
      modifies this`used, this`websocketMode, this`frameRemaining, this`past
      ensures used <= |plaintext| && View() == Release(old(View()), take)
      ensures View().chunks == old(View()).chunks + [chunk]
    {
      ghost var f := View();
      TailSplit(plaintext, used, take);
      assert f.started ==> FrameLeft(f.pending, f.remaining).Ok? && FrameLeft(f.pending, f.remaining).value.Some?;
      hide CanRelease, FrameLeft, Flatten;
      chunk := plaintext[used..used + take];
      if websocketMode {
        var left := FrameLeft(plaintext[used..], frameRemaining).value.value - take;
        frameRemaining := if left == 0 then None else Some(left);
      } else {
        websocketMode := true;
      }
      used := used + take;
      past := Release(f, take);
    }

    method PauseReading()
      requires used <= |plaintext|
      modifies this`readPaused, this`pausedAt
      ensures !closing && !old(readPaused) ==> readPaused && pausedAt == |View().chunks|
      ensures closing || old(readPaused) ==> readPaused == old(readPaused) && pausedAt == old(pausedAt)
    {
      if closing || readPaused { return; }
      readPaused := true;
      pausedAt := |View().chunks|;
    }

    /** A fatal error: the client's handshake Future is failed and the transport aborted. If
        the probe of that Future raises, the call ends with that error before the abort. */
    method Fail(error: PumpError) returns (r: Result<(), PumpError>)
      requires box.Valid()
      modifies this`closing, this`ending, box
      ensures closing && ending == (if r.Ok? then Aborted(error) else old(ending))
      ensures box.Valid() && box.View() == D.FailTls(old(box.View()))
      ensures r == if old(Raises(box)) then Err(ProbeRaised) else Ok(())
    {
      hide D.Sound, D.FailTls;
      closing := true;
      var ok := box.TlsFailed();
      if !ok { return Err(ProbeRaised); }
      ending := Aborted(error);
      r := Ok(());
    }

    /** After the peer's TLS close: close once everything has been released, otherwise abort. */
    method FinishPeerClose() returns (r: Result<(), PumpError>)
      requires Valid() && box.Valid()
      modifies this`closing, this`ending, box
      ensures Valid() && View() == old(View()) && box.Valid()
      ensures var acts := !old(closing) && peerClosed && !readPaused;
              var cut := acts && View().pending != [];
              && (closing <==> old(closing) || acts)
              && r == (if cut && old(Raises(box)) then Err(ProbeRaised) else Ok(()))
              && ending == (if acts && !cut then Closed
                            else if cut && r.Ok? then Aborted(IncompleteFrame)
                            else old(ending))
              && box.View() == (if cut then D.FailTls(old(box.View())) else old(box.View()))
      ensures !old(closing) && closing && ending.Closed? ==> Flatten(View().chunks) == View().read
    {
      hide ChunksInFrames, AtFrame, Flatten, Tracks, Quit, D.Sound, D.FailTls;
      r := Ok(());
      if closing || !peerClosed || readPaused { return; }
      if used == |plaintext| {
        assert Flatten(View().chunks) + [] == Flatten(View().chunks);
        Close();
      } else {
        r := Fail(IncompleteFrame);
      }
    }

    /** Release what can be released, then act on the peer's close. */
    method DrainAndFinish() returns (r: Result<(), PumpError>)
      requires Valid() && box.Valid()
      modifies this`plaintext, this`used, this`websocketMode, this`frameRemaining, this`past, this`handled,
               this`readPaused, this`pausedAt, this`closing, this`ending, inner, box
      ensures Valid() && box.Valid() && View().read == old(View()).read && old(View()).chunks <= View().chunks
      ensures old(closing) || old(readPaused) ==> View() == old(View()) && readPaused == old(readPaused)
      ensures old(closing) ==> closing && box.View() == old(box.View()) && r.Ok?
      ensures !old(closing) ==> Ended(this, r, old(box.View()), old(Raises(box)))
      ensures !old(closing) && !old(readPaused) ==>
        (readPaused <==> handled > old(handled) && reacts(handled - 1).pause)
      ensures r.Ok? && !closing && !readPaused ==> Drained(View())
    {
      hide Sound, Tracks, Flatten, Tail, Quit, D.Sound, D.FailTls, TakeSize, Refused;
      r := DrainPlaintext();
      RefusedIff(View());
      if r.Err? { return; }
      r := FinishPeerClose();
    }

    /** Take in the plaintext of every round, up to the first that does not fit. */
    method TakeInAll(packets: seq<Packet>) returns (error: Option<PumpError>, peerSeen: bool)
      requires Valid() && forall p :: p in packets && p.Records? ==> |p.data| <= p.want
      modifies this`plaintext, this`used, this`past
      ensures Valid() && View().chunks == old(View()).chunks && old(View()).read <= View().read
      ensures error == Misfit(|old(View()).pending|, packets, 0)
      ensures error.None? ==> View().read == old(View()).read + Flatten(DataOf(packets))
      ensures error.None? ==> peerSeen == PeerCloses(packets)
    {
      hide Sound, Flatten, Tracks, Misfit, Quit;
      error, peerSeen := None, false;
      ghost var n := |View().pending|;
      assert DataOf(packets[..0]) == [] && View().read + Flatten([]) == View().read by { NoChunks(View().read); }
      assert |Flatten(DataOf(packets[..0]))| == 0 by { NothingFlat(); }
      for i := 0 to |packets|
        invariant Valid() && View().chunks == old(View()).chunks
        invariant View().read == old(View()).read + Flatten(DataOf(packets[..i]))
        invariant |View().pending| == n + |Flatten(DataOf(packets[..i]))|
        invariant Misfit(n, packets, 0) == Misfit(n, packets, i)
        invariant peerSeen <==> exists j :: 0 <= j < i && packets[j].Records? && packets[j].peerClosed
      {
        var p := packets[i];
        assert p in packets;
        MisfitHere(n, packets, i);
        if p.TlsError? { return Some(TlsFailure), peerSeen; }
        peerSeen := peerSeen || p.peerClosed;
        if p.want > 0 {
          var ok := TakeIn(p.want, p.data);
          if !ok { return Some(CapacityExceeded), peerSeen; }
        } else {
          assert p.data == [];
        }
        DataOfNext(packets, i);
        FlattenSnoc(DataOf(packets[..i]), p.data);
        ConcatAssociative(old(View()).read, Flatten(DataOf(packets[..i])), p.data);
      }
      assert packets[..|packets|] == packets;
      MisfitHere(n, packets, |packets|);
    }

    /** All plaintext a read yields, and whether the peer has closed. */
    method Decrypt(packets: seq<Packet>) returns (error: Option<PumpError>)
      requires Valid() && forall p :: p in packets && p.Records? ==> |p.data| <= p.want
      modifies this`plaintext, this`used, this`past, this`peerClosed
      ensures Valid() && View().chunks == old(View()).chunks && old(View()).read <= View().read
      ensures error == Misfit(|old(View()).pending|, packets, 0)
      ensures error.None? ==> View().read == old(View()).read + Flatten(DataOf(packets))
      ensures peerClosed <==> old(peerClosed) || (error.None? && PeerCloses(packets))
    {
      hide Sound, Flatten, DataOf, Tracks, Tail, Misfit, PeerCloses, Quit;
      var peerSeen;
      error, peerSeen := TakeInAll(packets);
      if error.None? && peerSeen { peerClosed := true; }
    }

    method Abort(error: PumpError) returns (r: Result<(), PumpError>)
      requires Valid() && box.Valid()
      modifies this`closing, this`ending, box
      ensures Valid() && View() == old(View()) && closing
      ensures box.Valid() && box.View() == D.FailTls(old(box.View()))
      ensures ending == if r.Ok? then Aborted(error) else old(ending)
      ensures r == if old(Raises(box)) then Err(ProbeRaised) else Ok(())
    {
      hide Sound, Flatten, Tracks, Tail, Quit, D.Sound, D.FailTls;
      r := Fail(error);
    }

    /** Ciphertext arrived: take in all plaintext it yields, then release what can be released. */
    method DataReceived(packets: seq<Packet>) returns (r: Result<(), PumpError>)
      requires Valid() && box.Valid() && forall p :: p in packets && p.Records? ==> |p.data| <= p.want
      modifies this, inner, box
      ensures Valid() && box.Valid() && old(View()).read <= View().read && old(View()).chunks <= View().chunks
      ensures old(closing) ==>
        && View() == old(View()) && closing && r.Ok? && box.View() == old(box.View())
        && readPaused == old(readPaused) && unchanged(inner)
      ensures old(readPaused) ==> View().chunks == old(View()).chunks && readPaused
      ensures var fault := Misfit(|old(View()).pending|, packets, 0);
              !old(closing) && fault.Some? ==>
                && closing && View().chunks == old(View()).chunks && readPaused == old(readPaused)
                && r == (if old(Raises(box)) then Err(ProbeRaised) else Ok(()))
                && ending == (if r.Ok? then Aborted(fault.value) else Open)
                && box.View() == D.FailTls(old(box.View()))
      ensures !old(closing) && Misfit(|old(View()).pending|, packets, 0).None? ==>
                && View().read == old(View()).read + Flatten(DataOf(packets))
                && peerClosed == (old(peerClosed) || PeerCloses(packets))
                && Ended(this, r, old(box.View()), old(Raises(box)))
                && (!old(readPaused) ==> (readPaused <==> handled > old(handled) && reacts(handled - 1).pause))
      ensures r.Ok? && !closing && !readPaused ==> Drained(View())
    {
      hide Sound, Flatten, Drained, DataOf, Tracks, Tail, ChunksInFrames, View, D.Sound, D.FailTls, Misfit, PeerCloses;
      hide Quit, Ended;
      if closing { return Ok(()); }
      var error := Decrypt(packets);
      if error.Some? {
        r := Abort(error.value);
        return;
      }
      r := DrainAndFinish();
    }

    /** resume_reading: release what waited before new bytes are asked for. */
    method ResumeReading() returns (r: Result<(), PumpError>)
      requires Valid() && box.Valid()
      modifies this, inner, box
      ensures Valid() && box.Valid() && View().read == old(View()).read && old(View()).chunks <= View().chunks
      ensures peerClosed == old(peerClosed)
      ensures old(closing) || !old(readPaused) ==>
        && View() == old(View()) && closing == old(closing) && readPaused == old(readPaused) && r.Ok?
        && box.View() == old(box.View()) && unchanged(inner)
      ensures !old(closing) && old(readPaused) ==>
        && Ended(this, r, old(box.View()), old(Raises(box)))
        && (readPaused <==> handled > old(handled) && reacts(handled - 1).pause)
      ensures !old(closing) && old(readPaused) && r.Ok? && !closing && !readPaused ==> Drained(View())
    {
      hide Sound, Drained, Tracks, Flatten, Tail, D.Sound, D.FailTls, Quit, Ended;
      if closing || !readPaused { return Ok(()); }
      readPaused := false;
      r := DrainAndFinish();
    }

    method Close()
      modifies this`closing, this`ending
      ensures closing && ending == if old(closing) then old(ending) else Closed
    {
      if closing { return; }
      closing := true;
      ending := Closed;
    }
  }

  /** How releasing and acting on the peer's close went on a transport that was open: it is
      closing exactly if the client or the application closed, or the peer did and nothing
      stands in the way; and it failed exactly at a handshake or frame that is too long, or on
      a cut frame while the probe of the handshake Future raises. */
  ghost predicate Ended(p: RustlsTransport, r: Result<(), PumpError>, before: D.Box, raises: bool)
    requires p.Valid() && p.box.Valid() && D.Sound(before)
    reads p, p.inner, p.box
  {
    var f, quit := p.View(), Quit(p.inner, p.reacts, p.handled);
    var acts := !quit && p.peerClosed && !p.readPaused && Refused(f).None?;
    var cut := acts && f.pending != [];
    && (p.closing <==> quit || acts)
    && r == (if cut && raises then Err(ProbeRaised)
             else if !quit && !p.readPaused && Refused(f).Some? then Err(Refused(f).value)
             else Ok(()))
    && p.ending == (if !p.closing then Open
                    else if !cut then Closed
                    else if r.Ok? then Aborted(IncompleteFrame)
                    else Open)
    && p.box.View() == (if cut then D.FailTls(before) else before)
  }

  lemma {:induction false} MisfitHere(n: nat, packets: seq<Packet>, i: nat)
    requires i <= |packets|
    ensures Misfit(n, packets, i) ==
            if i == |packets| then None
            else if RoundFits(n, packets, i) then Misfit(n, packets, i + 1)
            else Some(if packets[i].TlsError? then TlsFailure else CapacityExceeded)
  {
    hide RoundFits;
  }

  lemma {:induction false} NothingFlat()
    ensures Flatten([]) == []
  {
  }

  /** Plaintext delivered by a list of rounds. */
  ghost function DataOf(packets: seq<Packet>): seq<bytes> {
    seq(|packets|, i requires 0 <= i < |packets| => if packets[i].Records? then packets[i].data else [])
  }

  lemma {:induction false} DataOfNext(packets: seq<Packet>, i: nat)
    requires i < |packets| && packets[i].Records?
    ensures DataOf(packets[..i + 1]) == DataOf(packets[..i]) + [packets[i].data]
  {
  }

  lemma {:induction false} NoChunks(read: bytes)
    ensures read + Flatten([]) == read
  {
  }

  lemma {:induction false} TailSplit(s: bytes, a: nat, take: nat)
    requires a <= |s| && take <= |Tail(s, a)|
    ensures a + take <= |s| && Tail(s, a + take) == Tail(s, a)[take..] && s[a..a + take] == Tail(s, a)[..take]
  {
  }

  lemma {:induction false} NothingPending(started: bool, remaining: Option<nat>)
    ensures TakeSize([], started, remaining) == Ok(None)
  {
  }

}
