/**
 WebSocket frame headers (section 5.2 of RFC 6455) and the end of the HTTP header
 block.
 */
module Codec {
  import opened Common

  const OP_CONTINUATION := 0
  const OP_TEXT := 1
  const OP_BINARY := 2
  const OP_CLOSE := 8
  const OP_PING := 9
  const OP_PONG := 10

  const MAX_FRAME_SIZE := 0x100_0000
  const MAX_MESSAGE_SIZE := 0x400_0000

  datatype Header = Header(fin: bool, rsv1: bool, opcode: nat, plen: nat, hdr: nat)

  /** The header at the front of `buf`, or None while it is incomplete. The mask
      bit is ignored: server frames are never masked. */
  function ParseHeader(buf: bytes): (r: Option<Header>)
    ensures r.Some? ==> 2 <= r.value.hdr <= 10 && r.value.hdr <= |buf| && r.value.opcode < 16
  {
    if |buf| < 2 then None
    else
      var fin, rsv1, opcode := buf[0] >= 128, buf[0] / 64 % 2 == 1, buf[0] % 16;
      var short := buf[1] % 128;
      if short <= 125 then Some(Header(fin, rsv1, opcode, short, 2))
      else if short == 126 then
        if |buf| < 4 then None else Some(Header(fin, rsv1, opcode, BigEndian(buf[2..4]), 4))
      else
        if |buf| < 10 then None else Some(Header(fin, rsv1, opcode, BigEndian(buf[2..10]), 10))
  }

  /** A header that is complete stays the same when more bytes arrive. */
  lemma {:induction false} ParseHeaderStable(a: bytes, b: bytes)
    requires ParseHeader(a).Some?
    ensures ParseHeader(a + b) == ParseHeader(a)
  {
    if |a| >= 4 { assert (a + b)[2..4] == a[2..4]; }
    if |a| >= 10 { assert (a + b)[2..10] == a[2..10]; }
  }

  /** The header that `buf` starts with, if its payload length is `plen` in a header of `hdr` bytes. */
  function HeaderWith(buf: bytes, plen: nat, hdr: nat): Header
    requires |buf| >= 2
  {
    Header(buf[0] >= 128, buf[0] / 64 % 2 == 1, buf[0] % 16, plen, hdr)
  }

  lemma {:induction false} ShortHeader(buf: bytes, plen: nat)
    requires |buf| >= 2 && buf[1] % 128 == plen <= 125
    ensures ParseHeader(buf) == Some(HeaderWith(buf, plen, 2))
  {
    hide BigEndian;
  }

  lemma {:induction false} MediumHeader(buf: bytes, plen: nat)
    requires |buf| >= 4 && buf[1] % 128 == 126 && BigEndian(buf[2..4]) == plen
    ensures ParseHeader(buf) == Some(HeaderWith(buf, plen, 4))
  {
    hide BigEndian;
  }

  lemma {:induction false} LongHeader(buf: bytes, plen: nat)
    requires |buf| >= 10 && buf[1] % 128 == 127 && BigEndian(buf[2..10]) == plen
    ensures ParseHeader(buf) == Some(HeaderWith(buf, plen, 10))
  {
    hide BigEndian;
  }

  predicate EndsHere(buf: bytes, i: nat) {
    i + 4 <= |buf| && buf[i] == 13 && buf[i + 1] == 10 && buf[i + 2] == 13 && buf[i + 3] == 10
  }

  /** First offset at or after `i` where CR LF CR LF starts. */
  function FindFrom(buf: bytes, i: nat): (r: Option<nat>)
    requires i <= |buf|
    ensures r.Some? ==> i + 4 <= r.value <= |buf|
    decreases |buf| - i
  {
    if i + 4 > |buf| then None
    else if EndsHere(buf, i) then Some(i + 4)
    else FindFrom(buf, i + 1)
  }

  /** Length of the HTTP header block: just past the first CR LF CR LF. */
  function FindHeaderEnd(buf: bytes): (r: Option<nat>)
    ensures r.Some? ==> 4 <= r.value <= |buf|
  {
    FindFrom(buf, 0)
  }

  lemma {:induction false} FindFromIsFirst(buf: bytes, i: nat)
    requires i <= |buf|
    ensures match FindFrom(buf, i)
            case Some(e) => EndsHere(buf, e - 4) && forall j: nat :: i <= j < e - 4 ==> !EndsHere(buf, j)
            case None => forall j: nat :: i <= j ==> !EndsHere(buf, j)
    decreases |buf| - i
  {
    if i + 4 <= |buf| && !EndsHere(buf, i) { FindFromIsFirst(buf, i + 1); }
  }

  /** The header block ends at the first CR LF CR LF, and is incomplete only if there is none. */
  lemma {:induction false} FindHeaderEndIsFirst(buf: bytes)
    ensures match FindHeaderEnd(buf)
            case Some(e) => EndsHere(buf, e - 4) && forall j: nat :: j < e - 4 ==> !EndsHere(buf, j)
            case None => forall j: nat :: !EndsHere(buf, j)
  {
    FindFromIsFirst(buf, 0);
  }

  lemma {:induction false} EndsHereStable(a: bytes, b: bytes, i: nat)
    requires i + 4 <= |a|
    ensures EndsHere(a + b, i) == EndsHere(a, i)
  {
  }

  /** The first end of the header block does not move when more bytes arrive. */
  lemma {:induction false} FindHeaderEndStable(a: bytes, b: bytes)
    requires FindHeaderEnd(a).Some?
    ensures FindHeaderEnd(a + b) == FindHeaderEnd(a)
  {
    FindHeaderEndIsFirst(a);
    FindHeaderEndIsFirst(a + b);
    hide FindHeaderEnd, EndsHere;
    var e := FindHeaderEnd(a).value;
    EndsHereStable(a, b, e - 4);
    var e' := FindHeaderEnd(a + b).value;
    if e' < e { EndsHereStable(a, b, e' - 4); }
  }
}
