/**
 Frames the client sends: the header built for one message or control payload,
 a reference decoder for masked frames, and the frame length the TLS shim reads
 off a header.
 */
module ClientFrame {
  import opened Common
  import opened Codec
  import opened Masking

  /** One frame to be sent; `payload` is in the clear. */
  datatype WireFrame = WireFrame(opcode: nat, rsv1: bool, payload: bytes, mask: bytes)

  predicate Sendable(f: WireFrame) {
    f.opcode < 16 && |f.mask| == 4 && |f.payload| < Pow256(8)
  }

  /** The length byte and its extension, with the mask bit set. */
  function LengthField(plen: nat): (s: bytes)
    requires plen < Pow256(8)
    ensures |s| == if plen <= 125 then 1 else if plen <= 65535 then 3 else 9
  {
    if plen <= 125 then [128 + plen]
    else if plen <= 65535 then [128 + 126] + ToBigEndian(plen, 2)
    else [128 + 127] + ToBigEndian(plen, 8)
  }

  function FirstByte(f: WireFrame): byte
    requires f.opcode < 16
  {
    128 + (if f.rsv1 then 64 else 0) + f.opcode
  }

  function FrameHeader(f: WireFrame): bytes
    requires Sendable(f)
  {
    [FirstByte(f)] + LengthField(|f.payload|) + f.mask
  }

  function Encode(f: WireFrame): bytes
    requires Sendable(f)
  {
    FrameHeader(f) + Masked(f.payload, f.mask)
  }

  datatype Clear = Clear(opcode: nat, rsv1: bool, payload: bytes)

  function InClear(f: WireFrame): Clear { Clear(f.opcode, f.rsv1, f.payload) }

  /** Reference decoder for one masked, final frame with RSV2 and RSV3 clear (sections 5.2
      and 5.3 of RFC 6455): its content and its size, or None while bytes are missing. */
  function DecodeOne(s: bytes): (r: Option<(Clear, nat)>)
    ensures r.Some? ==> 2 <= r.value.1 <= |s|
  {
    match ParseHeader(s)
    case None => None
    case Some(h) =>
      var start := h.hdr + 4;
      if !h.fin || s[0] / 16 % 4 != 0 || s[1] < 128 || |s| < start + h.plen then None
      else Some((Clear(h.opcode, h.rsv1, Masked(s[start..start + h.plen], s[h.hdr..start])), start + h.plen))
  }

  lemma {:induction false} EncodeLayout(f: WireFrame, rest: bytes)
    requires Sendable(f)
    ensures var s := Encode(f) + rest;
            var n := 1 + |LengthField(|f.payload|)|;
            && |Encode(f)| == n + 4 + |f.payload|
            && s[0] == FirstByte(f) && s[1..n] == LengthField(|f.payload|) && s[1] == LengthField(|f.payload|)[0]
            && s[n..n + 4] == f.mask
            && s[n + 4..n + 4 + |f.payload|] == Masked(f.payload, f.mask)
            && s[n + 4 + |f.payload|..] == rest
  {
    hide FirstByte, LengthField, Masked, Pow256;
  }

  lemma {:induction false} FirstByteBits(f: WireFrame)
    requires f.opcode < 16
    ensures var b := FirstByte(f);
            b >= 128 && (b / 64 % 2 == 1) == f.rsv1 && b / 16 % 4 == 0 && b % 16 == f.opcode
  {
  }

  lemma {:induction false} LengthFieldShape(plen: nat)
    requires plen < Pow256(8)
    ensures var s := LengthField(plen);
            && (plen <= 125 ==> s[0] == 128 + plen)
            && (125 < plen <= 65535 ==> s[0] == 254 && s[1..] == ToBigEndian(plen, 2))
            && (plen > 65535 ==> s[0] == 255 && s[1..] == ToBigEndian(plen, 8))
  {
    hide ToBigEndian, Pow256;
  }

  /** The length bytes behind `s[0]`, in whichever form, read back as `plen`. */
  lemma {:induction false} LengthReads(s: bytes, plen: nat)
    requires plen < Pow256(8)
    requires var n := 1 + |LengthField(plen)|; |s| >= n && s[1..n] == LengthField(plen)
    ensures |s| >= 2 && s[1] >= 128
    ensures ParseHeader(s) == Some(HeaderWith(s, plen, 1 + |LengthField(plen)|))
  {
    var field := LengthField(plen);
    var n := 1 + |field|;
    LengthFieldShape(plen);
    hide LengthField, ParseHeader, BigEndian, ToBigEndian, Pow256, HeaderWith;
    assert s[1] == s[1..n][0];
    if plen <= 125 {
      ShortHeader(s, plen);
    } else if plen <= 65535 {
      assert s[2..4] == s[1..n][1..];
      ShortBound(plen);
      BigEndianRoundTrip(plen, 2);
      MediumHeader(s, plen);
    } else {
      assert s[2..10] == s[1..n][1..];
      BigEndianRoundTrip(plen, 8);
      LongHeader(s, plen);
    }
  }

  /** The header of a sent frame parses back, with its own opcode, RSV1 flag and length. */
  lemma {:induction false} HeaderRoundTrip(f: WireFrame, rest: bytes)
    requires Sendable(f)
    ensures ParseHeader(Encode(f) + rest) ==
            Some(Header(true, f.rsv1, f.opcode, |f.payload|, 1 + |LengthField(|f.payload|)|))
    ensures |Encode(f)| >= 2 && (Encode(f) + rest)[1] >= 128 && (Encode(f) + rest)[0] / 16 % 4 == 0
  {
    FirstByteBits(f);
    EncodeLayout(f, rest);
    hide Encode, FirstByte, LengthField, ParseHeader, Pow256;
    LengthReads(Encode(f) + rest, |f.payload|);
  }

  lemma {:induction false} ShortBound(n: nat)
    requires n <= 65535
    ensures n < Pow256(2)
  {
  }

  /** Sending and decoding restores the content, whatever bytes follow. */
  lemma {:induction false} FrameRoundTrip(f: WireFrame, rest: bytes)
    requires Sendable(f)
    ensures DecodeOne(Encode(f) + rest) == Some((InClear(f), |Encode(f)|))
    ensures (Encode(f) + rest)[|Encode(f)|..] == rest
  {
    hide Encode, LengthField, Masked, ParseHeader, Pow256, FirstByte;
    HeaderRoundTrip(f, rest);
    EncodeLayout(f, rest);
    MaskedInvolutive(f.payload, f.mask);
  }

  ghost predicate AllSendable(fs: seq<WireFrame>) { forall f :: f in fs ==> Sendable(f) }

  ghost function EncodeAll(fs: seq<WireFrame>): bytes
    requires AllSendable(fs)
  {
    if fs == [] then [] else Encode(fs[0]) + EncodeAll(fs[1..])
  }

  ghost function AllInClear(fs: seq<WireFrame>): seq<Clear> {
    seq(|fs|, i requires 0 <= i < |fs| => InClear(fs[i]))
  }

  lemma {:induction false} EncodeAllAppend(a: seq<WireFrame>, f: WireFrame)
    requires AllSendable(a) && Sendable(f)
    ensures AllSendable(a + [f]) && EncodeAll(a + [f]) == EncodeAll(a) + Encode(f)
  {
    hide Encode, Sendable;
    if a == [] {
      assert a + [f] == [f];
      assert EncodeAll([f]) == Encode(f) + EncodeAll([]);
    } else {
      EncodeAllAppend(a[1..], f);
      assert (a + [f])[1..] == a[1..] + [f];
      ConcatAssociative(Encode(a[0]), EncodeAll(a[1..]), Encode(f));
    }
  }

  /** Cut a byte string into masked frames; None if bytes are left over. */
  function DecodeAll(s: bytes): Option<seq<Clear>>
    decreases |s|
  {
    if s == [] then Some([])
    else match DecodeOne(s)
      case None => None
      case Some((c, n)) =>
        match DecodeAll(s[n..])
        case None => None
        case Some(cs) => Some([c] + cs)
  }

  /** Any list of sent frames is recovered from the bytes alone. */
  lemma {:induction false} DecodeEncodeAll(fs: seq<WireFrame>)
    requires AllSendable(fs)
    ensures DecodeAll(EncodeAll(fs)) == Some(AllInClear(fs))
  {
    hide Encode, DecodeOne, InClear;
    if fs == [] {
      assert AllInClear(fs) == [];
    } else {
      var rest := EncodeAll(fs[1..]);
      FrameRoundTrip(fs[0], rest);
      DecodeEncodeAll(fs[1..]);
      assert AllInClear(fs) == [InClear(fs[0])] + AllInClear(fs[1..]);
    }
  }

  // ---- frame length read off a header ----

  datatype LengthError = LengthOverflow

  /** Total size of the frame at the front of `data`, or None while the header is incomplete. */
  function WebsocketFrameLen(data: bytes): Result<Option<nat>, LengthError> {
    if |data| < 2 then Ok(None)
    else
      var short := data[1] % 128;
      var extra := if data[1] >= 128 then 4 else 0;
      if short == 126 then
        if |data| < 4 then Ok(None) else Total(4 + extra, BigEndian(data[2..4]))
      else if short == 127 then
        if |data| < 10 then Ok(None) else Total(10 + extra, BigEndian(data[2..10]))
      else Total(2 + extra, short)
  }

  function Total(header: nat, payload: nat): Result<Option<nat>, LengthError> {
    if header + payload > USIZE_MAX then Err(LengthOverflow) else Ok(Some(header + payload))
  }

  /** The length scan agrees with the header parser on every input. */
  lemma {:induction false} FrameLenMatchesHeader(data: bytes)
    ensures WebsocketFrameLen(data) == Ok(None) <==> ParseHeader(data).None?
    ensures ParseHeader(data).Some? ==>
              var h := ParseHeader(data).value;
              WebsocketFrameLen(data) == Total(h.hdr + (if data[1] >= 128 then 4 else 0), h.plen)
  {
    hide BigEndian;
  }

  /** For a frame the client builds, the length scan gives exactly its size. */
  lemma {:induction false} FrameLenOfSent(f: WireFrame, rest: bytes)
    requires Sendable(f) && |Encode(f)| <= USIZE_MAX
    ensures WebsocketFrameLen(Encode(f) + rest) == Ok(Some(|Encode(f)|))
  {
    var s := Encode(f) + rest;
    HeaderRoundTrip(f, rest);
    EncodeLayout(f, rest);
    FrameLenMatchesHeader(s);
    hide Encode, ParseHeader, WebsocketFrameLen, LengthField;
  }
}
