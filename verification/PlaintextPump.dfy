/**
 The TLS shim's plaintext pump: decrypted bytes wait in a compacting buffer and
 are released to the client one frame at a time, so that a pause takes effect at
 a frame boundary.
 */
module PlaintextPump {
  import opened Common
  import opened Codec
  import opened ClientFrame

  const MAX_PENDING_PLAINTEXT := 0x10_0000
  const MAX_HANDSHAKE_BYTES := 0x1_0000

  // ---- frame boundaries of a stream ----

  ghost function Tail(s: bytes, a: nat): bytes
    requires a <= |s|
  {
    s[a..]
  }

  /** Length of the frame that starts at offset `a`. */
  ghost function LenAt(s: bytes, a: nat): Result<Option<nat>, LengthError>
    requires a <= |s|
  {
    WebsocketFrameLen(Tail(s, a))
  }

  /** `b` is the end of the header block, or the end of a frame that starts at a boundary. */
  ghost predicate Boundary(s: bytes, b: nat)
    decreases b
  {
    || FindHeaderEnd(s) == Some(b)
    || exists a :: 0 <= a < b <= |s| && Boundary(s, a) && LenAt(s, a) == Ok(Some(b - a))
  }

  /** No server frame is masked. */
  ghost predicate Unmasked(s: bytes) {
    forall a :: 0 <= a && a + 2 <= |s| && Boundary(s, a) ==> s[a + 1] < 128
  }

  lemma {:induction false} FrameLenStable(a: bytes, b: bytes)
    requires WebsocketFrameLen(a) != Ok(None)
    ensures WebsocketFrameLen(a + b) == WebsocketFrameLen(a)
  {
    if |a| >= 4 { assert (a + b)[2..4] == a[2..4]; }
    if |a| >= 10 { assert (a + b)[2..10] == a[2..10]; }
  }

  /** Boundaries stay where they are when more bytes arrive. */
  lemma {:induction false} BoundaryStable(s: bytes, t: bytes, b: nat)
    requires Boundary(s, b)
    ensures Boundary(s + t, b)
    decreases b
  {
    hide WebsocketFrameLen, FindHeaderEnd;
    if FindHeaderEnd(s) == Some(b) {
      FindHeaderEndStable(s, t);
    } else {
      var a :| 0 <= a < b <= |s| && Boundary(s, a) && LenAt(s, a) == Ok(Some(b - a));
      BoundaryStable(s, t, a);
      FrameLenStable(s[a..], t);
      assert (s + t)[a..] == s[a..] + t;
    }
  }

  /** The chunk that covers `lo..hi` lies inside the one frame that starts at `a`. */
  ghost predicate InFrameAt(s: bytes, a: nat, lo: nat, hi: nat) {
    && a <= lo <= hi && a <= |s| && Boundary(s, a)
    && LenAt(s, a).Ok? && LenAt(s, a).value.Some?
    && hi <= a + LenAt(s, a).value.value
  }

  lemma {:induction false} InFrameStable(s: bytes, t: bytes, a: nat, lo: nat, hi: nat)
    requires InFrameAt(s, a, lo, hi)
    ensures InFrameAt(s + t, a, lo, hi)
  {
    hide WebsocketFrameLen, Boundary;
    BoundaryStable(s, t, a);
    FrameLenStable(s[a..], t);
    assert (s + t)[a..] == s[a..] + t;
  }

  // ---- released chunks ----

  /** The first chunk is the header block; every later one lies inside one frame. */
  ghost predicate ChunksInFrames(read: bytes, chunks: seq<bytes>, starts: seq<nat>) {
    && |starts| == |chunks|
    && (chunks != [] ==> FindHeaderEnd(read) == Some(|chunks[0]|))
    && (forall i :: 1 <= i < |chunks| ==>
          InFrameAt(read, starts[i], |Flatten(chunks[..i])|, |Flatten(chunks[..i])| + |chunks[i]|))
  }

  lemma {:induction false} ChunksStable(read: bytes, more: bytes, chunks: seq<bytes>, starts: seq<nat>)
    requires ChunksInFrames(read, chunks, starts)
    ensures ChunksInFrames(read + more, chunks, starts)
  {
    hide InFrameAt, FindHeaderEnd, Flatten;
    if chunks != [] { FindHeaderEndStable(read, more); }
    forall i | 1 <= i < |chunks|
      ensures InFrameAt(read + more, starts[i], |Flatten(chunks[..i])|, |Flatten(chunks[..i])| + |chunks[i]|)
    {
      InFrameStable(read, more, starts[i], |Flatten(chunks[..i])|, |Flatten(chunks[..i])| + |chunks[i]|);
    }
  }

  lemma {:induction false} ChunkAdded(read: bytes, chunks: seq<bytes>, starts: seq<nat>, chunk: bytes, a: nat)
    requires ChunksInFrames(read, chunks, starts) && chunks != []
    requires InFrameAt(read, a, |Flatten(chunks)|, |Flatten(chunks)| + |chunk|)
    ensures ChunksInFrames(read, chunks + [chunk], starts + [a])
  {
    hide InFrameAt, FindHeaderEnd, Flatten;
    var c, st := chunks + [chunk], starts + [a];
    forall i | 1 <= i < |c| ensures InFrameAt(read, st[i], |Flatten(c[..i])|, |Flatten(c[..i])| + |c[i]|) {
      if i < |chunks| {
        assert c[..i] == chunks[..i];
      } else {
        assert c[..i] == chunks;
      }
    }
  }

  // ---- flow of plaintext ----

  datatype PumpError =
    | CapacityExceeded | TlsFailure | HandshakeTooLong | FrameLengthOverflow | IncompleteFrame | ProbeRaised

  /** Bytes not yet released, progress within the current frame, and the history:
      all plaintext read, the chunks released, the start of the frame each belongs
      to, and the start of the frame in progress. */
  datatype Flow = Flow(
    pending: bytes, started: bool, remaining: Option<nat>,
    read: bytes, chunks: seq<bytes>, starts: seq<nat>, at: nat)

  /** Where the client is within the frame in progress. */
  ghost predicate AtFrame(f: Flow) {
    if !f.started then f.chunks == [] && f.remaining.None?
    else
      && f.chunks != [] && f.at <= |f.read| && Boundary(f.read, f.at)
      && match f.remaining
         case None => f.at == |Flatten(f.chunks)|
         case Some(r) =>
           r > 0 && f.at < |Flatten(f.chunks)| && LenAt(f.read, f.at) == Ok(Some(|Flatten(f.chunks)| + r - f.at))
  }

  /** Conservation, framing and the memory bound. */
  ghost predicate Sound(f: Flow) {
    && Flatten(f.chunks) + f.pending == f.read
    && |f.pending| <= MAX_PENDING_PLAINTEXT
    && ChunksInFrames(f.read, f.chunks, f.starts)
    && AtFrame(f)
  }

  ghost function Empty(): Flow { Flow([], false, None, [], [], [], 0) }

  lemma {:induction false} EmptySound()
    ensures Sound(Empty())
  {
  }

  lemma {:induction false} EmptyView(past: Flow)
    requires past == Empty()
    ensures past.(pending := Tail([], 0), started := false, remaining := None) == Empty() && Sound(Empty())
      && Empty().chunks == []
  {
    EmptySound();
    hide Sound;
  }

  /** New plaintext joins the pending bytes. */
  ghost function Absorb(f: Flow, data: bytes): Flow { f.(pending := f.pending + data, read := f.read + data) }

  lemma {:induction false} AbsorbSound(f: Flow, data: bytes)
    requires Sound(f) && |f.pending| + |data| <= MAX_PENDING_PLAINTEXT
    ensures Sound(Absorb(f, data))
  {
    hide ChunksInFrames, Boundary, LenAt, Flatten;
    ConcatAssociative(Flatten(f.chunks), f.pending, data);
    ChunksStable(f.read, data, f.chunks, f.starts);
    FrameStable(f.read, data, f.started, f.at);
  }

  /** How many bytes may be released next: the header block, the rest of the frame in
      progress, or as much of the next frame as is there. */
  function TakeSize(pending: bytes, started: bool, remaining: Option<nat>): Result<Option<nat>, PumpError> {
    if pending == [] then Ok(None)
    else if !started then
      match FindHeaderEnd(pending)
      case Some(end) => Ok(Some(end))
      case None => if |pending| > MAX_HANDSHAKE_BYTES then Err(HandshakeTooLong) else Ok(None)
    else match FrameLeft(pending, remaining)
      case Err(_) => Err(FrameLengthOverflow)
      case Ok(None) => Ok(None)
      case Ok(Some(n)) => Ok(Some(Min(n, |pending|)))
  }

  function FrameLeft(pending: bytes, remaining: Option<nat>): Result<Option<nat>, LengthError> {
    if remaining.Some? then Ok(remaining) else WebsocketFrameLen(pending)
  }

  ghost predicate CanRelease(f: Flow, take: nat) {
    TakeSize(f.pending, f.started, f.remaining) == Ok(Some(take))
  }

  ghost function Release(f: Flow, take: nat): Flow
    requires CanRelease(f, take) && take <= |f.pending|
  {
    if !f.started then
      f.(pending := f.pending[take..], started := true, chunks := f.chunks + [f.pending[..take]],
         starts := f.starts + [0], at := take)
    else
      var left := FrameLeft(f.pending, f.remaining).value.value - take;
      f.(pending := f.pending[take..], remaining := if left == 0 then None else Some(left),
         chunks := f.chunks + [f.pending[..take]], starts := f.starts + [f.at],
         at := if left == 0 then |Flatten(f.chunks)| + take else f.at)
  }

  lemma {:induction false} TakeInside(f: Flow, take: nat)
    requires Sound(f) && CanRelease(f, take)
    ensures 0 < take <= |f.pending|
  {
    hide Flatten, ChunksInFrames, Boundary, LenAt;
  }

  lemma {:induction false} ReleaseSound(f: Flow, take: nat)
    requires Sound(f) && CanRelease(f, take)
    ensures 0 < take <= |f.pending| && Sound(Release(f, take)) && |Release(f, take).pending| < |f.pending|
  {
    TakeInside(f, take);
    if f.started { ReleaseFrameSound(f, take); } else { ReleaseHeaderSound(f, take); }
  }

  lemma {:induction false} ReleaseHeaderSound(f: Flow, take: nat)
    requires Sound(f) && !f.started && CanRelease(f, take) && 0 < take <= |f.pending|
    ensures Sound(Release(f, take))
  {
    var chunk, rest := f.pending[..take], f.pending[take..];
    assert f.pending == chunk + rest;
    OnlyChunk(chunk, rest);
    HeaderChunk(f.read, chunk);
    assert ChunksInFrames(f.read, [], f.starts) ==> f.starts == [];
    assert f.chunks + [chunk] == [chunk] && f.starts + [0] == [0];
    hide ChunksInFrames, Boundary, LenAt, Flatten;
  }

  lemma {:induction false} ReleaseFrameSound(f: Flow, take: nat)
    requires Sound(f) && f.started && CanRelease(f, take) && 0 < take <= |f.pending|
    ensures Sound(Release(f, take))
  {
    FrameAhead(f, take);
    FrameLeftIsRest(f);
    hide Sound, LenAt, WebsocketFrameLen, Flatten, Release, CanRelease, FrameLeft;
    var left := FrameLeft(f.pending, f.remaining).value.value;
    assert f.pending == f.pending[..take] + f.pending[take..];
    ReleaseInFrame(f, take);
    FrameReleased(f, Release(f, take), f.pending[..take], f.pending[take..], left);
  }

  /** Inside a frame, what may be taken is at most what is left of it. */
  lemma {:induction false} FrameAhead(f: Flow, take: nat)
    requires f.started && CanRelease(f, take)
    ensures FrameLeft(f.pending, f.remaining).Ok? && FrameLeft(f.pending, f.remaining).value.Some?
    ensures take <= FrameLeft(f.pending, f.remaining).value.value
  {
    hide WebsocketFrameLen;
  }

  lemma {:induction false} ReleaseInFrame(f: Flow, take: nat)
    requires f.started && CanRelease(f, take) && take <= |f.pending|
    requires FrameLeft(f.pending, f.remaining).Ok? && FrameLeft(f.pending, f.remaining).value.Some?
    ensures var left := FrameLeft(f.pending, f.remaining).value.value;
            Release(f, take) ==
            f.(pending := f.pending[take..], remaining := if left == take then None else Some(left - take),
               chunks := f.chunks + [f.pending[..take]], starts := f.starts + [f.at],
               at := if left == take then |Flatten(f.chunks)| + take else f.at)
  {
    hide WebsocketFrameLen, Flatten;
  }

  /** What is left of the frame in progress, as the header at its start declares. */
  lemma {:induction false} FrameLeftIsRest(f: Flow)
    requires Sound(f) && f.started && FrameLeft(f.pending, f.remaining).Ok?
      && FrameLeft(f.pending, f.remaining).value.Some?
    ensures f.at <= |f.read| && f.at <= |Flatten(f.chunks)|
    ensures LenAt(f.read, f.at) == Ok(Some(|Flatten(f.chunks)| + FrameLeft(f.pending, f.remaining).value.value - f.at))
  {
    hide ChunksInFrames, Boundary, WebsocketFrameLen, Flatten;
    assert f.remaining.None? ==> Tail(f.read, f.at) == f.pending;
  }

  lemma {:induction false} FrameReleased(f: Flow, t: Flow, chunk: bytes, rest: bytes, left: nat)
    requires Sound(f) && f.started && f.pending == chunk + rest && 0 < |chunk| <= left
    requires f.at <= |f.read| && LenAt(f.read, f.at) == Ok(Some(|Flatten(f.chunks)| + left - f.at))
    requires t == f.(pending := rest, remaining := if left == |chunk| then None else Some(left - |chunk|),
                     chunks := f.chunks + [chunk], starts := f.starts + [f.at],
                     at := if left == |chunk| then |Flatten(f.chunks)| + |chunk| else f.at)
    ensures Sound(t)
  {
    hide ChunksInFrames, Boundary, LenAt, Flatten;
    ConcatAssociative(Flatten(f.chunks), chunk, rest);
    FlattenSnoc(f.chunks, chunk);
    FrameChunk(f.read, f.chunks, f.starts, chunk, f.at, left);
  }

  /** Nothing more can be released before further bytes arrive. */
  ghost predicate Drained(f: Flow) { TakeSize(f.pending, f.started, f.remaining) == Ok(None) }

  /** Why nothing can ever be released again: more than 64 KiB without the end of the HTTP block,
      or a frame whose length overflows 64 bits. */
  ghost function Refused(f: Flow): Option<PumpError> {
    if f.pending == [] then None
    else if !f.started then
      if FindHeaderEnd(f.pending).None? && |f.pending| > 0x1_0000 then Some(HandshakeTooLong) else None
    else if f.remaining.Some? || ParseHeader(f.pending).None? then None
    else
      var h := ParseHeader(f.pending).value;
      if h.hdr + (if f.pending[1] >= 128 then 4 else 0) + h.plen > 0xFFFF_FFFF_FFFF_FFFF then Some(FrameLengthOverflow)
      else None
  }

  /** The release step fails exactly then. */
  lemma {:induction false} RefusedIff(f: Flow)
    ensures var t := TakeSize(f.pending, f.started, f.remaining);
            Refused(f) == if t.Err? then Some(t.error) else None
  {
    FrameLenMatchesHeader(f.pending);
    hide FindHeaderEnd, ParseHeader, WebsocketFrameLen;
  }

  lemma {:induction false} OnlyChunk(chunk: bytes, rest: bytes)
    ensures Flatten([]) + (chunk + rest) == chunk + rest == Flatten([chunk]) + rest && Flatten([chunk]) == chunk
  {
    assert Flatten([chunk]) == chunk + Flatten([]);
  }

  lemma {:induction false} HeaderChunk(read: bytes, chunk: bytes)
    requires FindHeaderEnd(read) == Some(|chunk|)
    ensures ChunksInFrames(read, [chunk], [0]) && Boundary(read, |chunk|)
  {
  }

  /** Released bytes stay inside the frame that starts at `a`; the last of them end on a boundary. */
  lemma {:induction false} FrameChunk(read: bytes, chunks: seq<bytes>, starts: seq<nat>, chunk: bytes, a: nat,
    remaining: nat)
    requires ChunksInFrames(read, chunks, starts) && chunks != []
    requires a <= |Flatten(chunks)| && |Flatten(chunks)| + |chunk| <= |read| && Boundary(read, a)
    requires |chunk| <= remaining && LenAt(read, a) == Ok(Some(|Flatten(chunks)| + remaining - a))
    ensures ChunksInFrames(read, chunks + [chunk], starts + [a])
    ensures |chunk| == remaining && a < |Flatten(chunks)| + remaining ==> Boundary(read, |Flatten(chunks)| + remaining)
  {
    hide LenAt, FindHeaderEnd, Flatten;
    assert InFrameAt(read, a, |Flatten(chunks)|, |Flatten(chunks)| + |chunk|) by { hide Boundary; }
    ChunkAdded(read, chunks, starts, chunk, a);
  }

  /** The frame in progress is the same frame when more bytes arrive. */
  lemma {:induction false} FrameStable(read: bytes, more: bytes, started: bool, a: nat)
    requires started ==> a <= |read| && Boundary(read, a)
    ensures started ==> Boundary(read + more, a)
    ensures started && LenAt(read, a) != Ok(None) ==> LenAt(read + more, a) == LenAt(read, a)
  {
    if started {
      hide WebsocketFrameLen, Boundary;
      BoundaryStable(read, more, a);
      assert (read + more)[a..] == read[a..] + more;
      if LenAt(read, a) != Ok(None) { FrameLenStable(read[a..], more); }
    }
  }
}
