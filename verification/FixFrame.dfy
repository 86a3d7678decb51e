/** The frame around the body: tag 8, the tag 9 length, the tag 10 checksum. */
module FixFrame {
  import opened Common
  import opened FixText

  const MAX_FIX_FRAME_LEN := 0x10_0000
  const TRAILER_LEN := 7

  /** "FIXT.1.1" */
  const FIXT11: bytes := [70, 73, 88, 84, 46, 49, 46, 49]

  const BEGIN := Field(8, FIXT11)

  function LengthField(n: nat): Field { Field(9, PrintNat(n)) }

  // ---- checksum ----

  /** The fold with an eight-bit accumulator. */
  function Checksum(s: bytes): (c: byte) {
    if s == [] then 0 else (Checksum(s[..|s| - 1]) + s[|s| - 1]) % 256
  }

  ghost function Sum(s: bytes): nat {
    if s == [] then 0 else Sum(s[..|s| - 1]) + s[|s| - 1]
  }

  lemma {:induction false} Congruent(x: nat, z: nat)
    ensures (x % 256 + z) % 256 == (x + z) % 256
  {
  }

  lemma {:induction false} SameResidue(x: nat, y: nat)
    requires x % 256 == y % 256 && x - 256 < y < x + 256
    ensures x == y
  {
  }

  /** The wrapping fold is the sum modulo 256. */
  lemma {:induction false} ChecksumIsSum(s: bytes)
    ensures Checksum(s) == Sum(s) % 256
  {
    if s != [] {
      var n := |s| - 1;
      ChecksumIsSum(s[..n]);
      Congruent(Sum(s[..n]), s[n]);
    }
  }

  lemma {:induction false} SumReplace(s: bytes, i: nat, b: byte)
    requires i < |s|
    ensures Sum(s[i := b]) == Sum(s) - s[i] + b
    decreases |s|
  {
    var n := |s| - 1;
    if i == n {
      assert s[i := b][..n] == s[..n];
    } else {
      assert s[i := b][..n] == s[..n][i := b];
      SumReplace(s[..n], i, b);
    }
  }

  /** Changing one byte always changes the checksum. */
  lemma {:induction false} ChecksumSeesByte(s: bytes, i: nat, b: byte)
    requires i < |s| && b != s[i]
    ensures Checksum(s[i := b]) != Checksum(s)
  {
    hide Checksum, Sum;
    ChecksumIsSum(s);
    ChecksumIsSum(s[i := b]);
    SumReplace(s, i, b);
    if Checksum(s[i := b]) == Checksum(s) { SameResidue(Sum(s), Sum(s[i := b])); }
  }

  function ThreeDigits(c: byte): (r: bytes)
    ensures |r| == 3
  {
    [48 + c / 100, 48 + c / 10 % 10, 48 + c % 10]
  }

  function Trailer(c: byte): (r: bytes)
    ensures |r| == TRAILER_LEN
  {
    [49, 48, EQUALS] + ThreeDigits(c) + [SOH]
  }

  function Denoted(x: byte, y: byte, z: byte): int { (x as int - 48) * 100 + (y as int - 48) * 10 + (z as int - 48) }

  lemma {:induction false} Digits(a: nat, b: nat, d: nat)
    requires b < 10 && d < 10
    ensures var c := a * 100 + b * 10 + d; c / 100 == a && c / 10 % 10 == b && c % 10 == d
  {
    var c := a * 100 + b * 10 + d;
    assert c / 10 == a * 10 + b;
  }

  lemma {:induction false} Recombine(c: nat)
    ensures c == c / 100 * 100 + c / 10 % 10 * 10 + c % 10
  {
    assert c / 10 / 10 == c / 100;
  }

  /** Three digits that denote `c` are the digits of `c`. */
  lemma {:induction false} DigitsOf(x: byte, y: byte, z: byte, c: byte)
    requires IsDigit(x) && IsDigit(y) && IsDigit(z)
    ensures Denoted(x, y, z) == c <==> [x, y, z] == ThreeDigits(c)
  {
    Digits(x - 48, y - 48, z - 48);
    Recombine(c);
    var t := [x, y, z];
    assert t[0] == x && t[1] == y && t[2] == z;
    var r := ThreeDigits(c);
    assert r[0] == 48 + c / 100 && r[1] == 48 + c / 10 % 10 && r[2] == 48 + c % 10;
    hide ThreeDigits;
    assert t == r <==> x == r[0] && y == r[1] && z == r[2];
  }

  lemma {:induction false} ThreeDigitsAreDigits(c: byte)
    ensures IsDigit(ThreeDigits(c)[0]) && IsDigit(ThreeDigits(c)[1]) && IsDigit(ThreeDigits(c)[2])
  {
  }

  // ---- framing ----

  datatype Framing = Framing(length: Field, bodyStart: nat, trailerStart: nat)

  function CheckTrailer(s: bytes, at: nat): Result<bytes, FixError>
    requires at + TRAILER_LEN == |s|
  {
    var raw := s[at + 3..at + 6];
    if s[at..at + 3] != [49, 48, EQUALS] || s[at + 6] != SOH then Err(BadTrailer)
    else if !AllDigits(raw) then Err(ChecksumNotDigits)
    else
      var expected := Denoted(raw[0], raw[1], raw[2]);
      if expected > 255 then Err(ChecksumTooBig)
      else if Checksum(s[..at]) != expected then Err(ChecksumMismatch)
      else Ok(raw)
  }

  function ParseLength(s: bytes, after: nat): (r: Result<Framing, FixError>)
    requires after <= |s|
    ensures r.Ok? ==> after <= r.value.bodyStart <= r.value.trailerStart && r.value.trailerStart + TRAILER_LEN == |s|
  {
    match FieldAt(s, after, |s|)
    case Err(e) => Err(BadBodyLength(e))
    case Ok((f, bodyStart)) =>
      if f.tag != 9 then Err(NotBodyLength)
      else match ParseDecimal(f.value)
        case Err(e) => Err(e)
        case Ok(n) =>
          if bodyStart + n > USIZE_MAX then Err(BodyLengthOverflow)
          else if bodyStart + n + TRAILER_LEN != |s| then Err(BodyLengthMismatch)
          else Ok(Framing(f, bodyStart, bodyStart + n))
  }

  function ParseFraming(s: bytes): (r: Result<Framing, FixError>)
    ensures r.Ok? ==> r.value.bodyStart <= r.value.trailerStart && r.value.trailerStart + TRAILER_LEN == |s|
  {
    if |s| > MAX_FIX_FRAME_LEN then Err(FrameTooLong)
    else match FieldAt(s, 0, |s|)
      case Err(e) => Err(BadBeginString(e))
      case Ok((f, after)) =>
        if f.tag != 8 then Err(NotBeginString)
        else if f.value != FIXT11 then Err(WrongVersion)
        else match ParseLength(s, after)
          case Err(e) => Err(e)
          case Ok(fr) =>
            match CheckTrailer(s, fr.trailerStart)
            case Err(e) => Err(e)
            case Ok(_) => Ok(fr)
  }

  // ---- the printed frame ----

  function Head(n: nat): bytes { PrintField(BEGIN) + PrintField(LengthField(n)) }

  /** The frame that carries `body`. */
  function Framed(body: bytes): bytes {
    Head(|body|) + body + Trailer(Checksum(Head(|body|) + body))
  }

  /** The trailer is accepted exactly when it spells the checksum of all bytes before it. */
  lemma {:induction false} TrailerIff(s: bytes, at: nat)
    requires at + TRAILER_LEN == |s|
    ensures CheckTrailer(s, at).Ok? <==> s[at..] == Trailer(Checksum(s[..at]))
    ensures CheckTrailer(s, at).Ok? ==> CheckTrailer(s, at).value == ThreeDigits(Checksum(s[..at]))
  {
    var c := Checksum(s[..at]);
    var t, raw := s[at..], s[at + 3..at + 6];
    hide Checksum;
    assert raw == [raw[0], raw[1], raw[2]];
    assert t == s[at..at + 3] + raw + [s[at + 6]];
    if AllDigits(raw) {
      DigitsOf(raw[0], raw[1], raw[2], c);
    }
    if t == Trailer(c) {
      ThreeDigitsAreDigits(c);
      assert raw == t[3..6] && s[at..at + 3] == t[..3] && s[at + 6] == t[6];
      assert Trailer(c)[3..6] == ThreeDigits(c) && Trailer(c)[..3] == [49, 48, EQUALS] && Trailer(c)[6] == SOH;
    }
  }

  /** A field parsed at `start` is printed there. */
  lemma {:induction false} FramingSound(s: bytes)
    requires ParseFraming(s).Ok?
    ensures var fr := ParseFraming(s).value;
            var n := fr.trailerStart - fr.bodyStart;
            && s[..fr.bodyStart] == Head(n) && fr.length == LengthField(n)
            && CheckTrailer(s, fr.trailerStart).Ok?
  {
    var fr := ParseFraming(s).value;
    var (f, after) := FieldAt(s, 0, |s|).value;
    FieldAtSound(s, 0, |s|);
    FieldAtSound(s, after, |s|);
    ParseDecimalIffPrinted(fr.length.value, fr.trailerStart - fr.bodyStart);
    hide FieldAt, ParseDecimal, PrintNat, PrintField, CheckTrailer;
    assert s[..fr.bodyStart] == s[0..after] + s[after..fr.bodyStart];
  }

  lemma {:induction false} ThreeParts(s: bytes, i: nat, j: nat)
    requires i <= j <= |s|
    ensures s[..j] == s[..i] + s[i..j] && s == s[..j] + s[j..]
  {
  }

  lemma {:induction false} TrailerDigits(s: bytes, at: nat, c: byte)
    requires at + TRAILER_LEN == |s| && s[at..] == Trailer(c)
    ensures s[at + 3..at + 6] == ThreeDigits(c)
  {
    assert s[at + 3..at + 6] == s[at..][3..6];
  }

  /** Whatever framing accepts is the frame printed around its own body. */
  lemma {:induction false} FramingFacts(s: bytes)
    requires ParseFraming(s).Ok?
    ensures var fr := ParseFraming(s).value;
            var text := s[fr.bodyStart..fr.trailerStart];
            && |s| <= MAX_FIX_FRAME_LEN && s == Framed(text) && fr.length == LengthField(|text|)
            && s[fr.trailerStart + 3..fr.trailerStart + 6] == ThreeDigits(Checksum(Head(|text|) + text))
  {
    var fr := ParseFraming(s).value;
    assert |s| <= MAX_FIX_FRAME_LEN;
    hide ParseFraming, Head, Trailer, CheckTrailer, Checksum, PrintNat, ThreeDigits;
    FramingSound(s);
    TrailerIff(s, fr.trailerStart);
    ThreeParts(s, fr.bodyStart, fr.trailerStart);
    TrailerDigits(s, fr.trailerStart, Checksum(s[..fr.trailerStart]));
  }

  /** Two fields in a row parse to what was printed, whatever follows. */
  lemma {:induction false} HeadParses(s: bytes, n: nat)
    requires Head(n) <= s
    ensures var a := |PrintField(BEGIN)|;
            && a <= |Head(n)| <= |s|
            && FieldAt(s, 0, |s|) == Ok((BEGIN, a))
            && FieldAt(s, a, |s|) == Ok((LengthField(n), |Head(n)|))
  {
    var p, q := PrintField(BEGIN), PrintField(LengthField(n));
    LengthPrintable(n);
    hide PrintNat, PrintField, FieldAt;
    assert s[0..|p|] == p && s[|p|..|p| + |q|] == q by {
      assert s[..|p + q|] == p + q;
      assert s[0..|p|] == s[..|p + q|][..|p|] && s[|p|..|p| + |q|] == s[..|p + q|][|p|..];
    }
    FieldAtComplete(s, 0, |s|, BEGIN);
    FieldAtComplete(s, |p|, |s|, LengthField(n));
  }

  lemma {:induction false} LengthPrintable(n: nat)
    ensures Printable(LengthField(n)) && Printable(BEGIN)
  {
    PrintNatShape(n);
    hide PrintNat;
  }

  lemma {:induction false} PartsOf(p: bytes, q: bytes, r: bytes)
    ensures var s := p + q + r;
            && |s| == |p| + |q| + |r| && p <= s
            && s[|p|..|p| + |q|] == q && s[..|p| + |q|] == p + q && s[|p| + |q|..] == r
  {
    assert p + q + r == (p + q) + r;
  }

  lemma {:induction false} FramedParts(body: bytes)
    ensures var n, h, s := |body|, |Head(|body|)|, Framed(body);
            && |s| == h + n + TRAILER_LEN && Head(n) <= s && s[h..h + n] == body
            && CheckTrailer(s, h + n).Ok? && s[h + n..] == Trailer(Checksum(Head(n) + body))
  {
    var n, h := |body|, |Head(|body|)|;
    hide Checksum, Trailer, Head, CheckTrailer;
    PartsOf(Head(n), body, Trailer(Checksum(Head(n) + body)));
    TrailerIff(Framed(body), h + n);
  }

  lemma {:induction false} LengthParses(s: bytes, n: nat)
    requires Head(n) <= s && |s| == |Head(n)| + n + TRAILER_LEN && |s| <= MAX_FIX_FRAME_LEN
    requires CheckTrailer(s, |Head(n)| + n).Ok?
    ensures ParseFraming(s) == Ok(Framing(LengthField(n), |Head(n)|, |Head(n)| + n))
  {
    hide Head, ParseDecimal, FieldAt, CheckTrailer, PrintNat, PrintField;
    HeadParses(s, n);
    ParseDecimalIffPrinted(PrintNat(n), n);
  }

  /** Every frame printed around a body is accepted, if it is not too long. */
  lemma {:induction false} FramingComplete(body: bytes)
    requires |Framed(body)| <= MAX_FIX_FRAME_LEN
    ensures var n, h, s := |body|, |Head(|body|)|, Framed(body);
            && ParseFraming(s) == Ok(Framing(LengthField(n), h, h + n))
            && |s| == h + n + TRAILER_LEN && s[h..h + n] == body
            && s[h + n + 3..h + n + 6] == ThreeDigits(Checksum(Head(n) + body))
  {
    hide ParseFraming, Framed, Checksum, Trailer, Head, LengthField, CheckTrailer, PrintNat, ThreeDigits;
    var n, h, s := |body|, |Head(|body|)|, Framed(body);
    FramedParts(body);
    LengthParses(s, n);
    TrailerDigits(s, h + n, Checksum(Head(n) + body));
  }

  /** Accepted framings are prefix-free: the length field fixes where the frame ends. */
  lemma {:induction false} FramingPrefixFree(s: bytes, t: bytes)
    requires ParseFraming(s).Ok? && ParseFraming(t).Ok? && s <= t
    ensures s == t
  {
    FramingSound(s);
    FramingSound(t);
    var fr, fr' := ParseFraming(s).value, ParseFraming(t).value;
    var n, n' := fr.trailerStart - fr.bodyStart, fr'.trailerStart - fr'.bodyStart;
    hide ParseFraming, Head;
    assert Head(n) <= s && Head(n) <= t && Head(n') <= t;
    HeadParses(t, n);
    HeadParses(t, n');
    ParseDecimalIffPrinted(PrintNat(n), n);
    ParseDecimalIffPrinted(PrintNat(n), n');
  }

  /** A trailer that spells the checksum no longer does after one substitution. */
  lemma {:induction false} SubstitutionShows(s: bytes, at: nat, i: nat, b: byte)
    requires i < |s| && at <= |s| && b != s[i] && s[at..] == Trailer(Checksum(s[..at]))
    ensures s[i := b][at..] != Trailer(Checksum(s[i := b][..at]))
  {
    var t := s[i := b];
    var c, c' := Checksum(s[..at]), Checksum(t[..at]);
    hide Trailer, Checksum;
    if i < at {
      assert t[..at] == s[..at][i := b];
      ChecksumSeesByte(s[..at], i, b);
      assert t[at..] == s[at..];
      if Trailer(c) == Trailer(c') { TrailerInjective(c, c'); }
    } else {
      assert t[..at] == s[..at];
      assert t[at..][i - at] != s[at..][i - at];
    }
  }

  /** Any single substituted byte breaks the framing. */
  lemma {:induction false} SubstitutionBreaks(s: bytes, i: nat, b: byte)
    requires ParseFraming(s).Ok? && i < |s| && b != s[i]
    ensures ParseFraming(s[i := b]).Err?
  {
    var at := |s| - TRAILER_LEN;
    hide ParseFraming, Head, CheckTrailer, Checksum, Trailer;
    FramingSound(s);
    TrailerIff(s, at);
    SubstitutionShows(s, at, i, b);
    TrailerIff(s[i := b], at);
    if ParseFraming(s[i := b]).Ok? { FramingSound(s[i := b]); }
  }

  lemma {:induction false} TrailerInjective(c: byte, c': byte)
    requires Trailer(c) == Trailer(c')
    ensures c == c'
  {
    ThreeDigitsAreDigits(c);
    assert Trailer(c)[3..6] == ThreeDigits(c) && Trailer(c')[3..6] == ThreeDigits(c');
    var r := ThreeDigits(c);
    DigitsOf(r[0], r[1], r[2], c);
    DigitsOf(r[0], r[1], r[2], c');
  }
}
