/** The decoder as it runs: loops over cursors and growing vectors, proved against `FixMessage.Decode`. */
module FixDecoder {
  import opened Common
  import opened FixText
  import opened FixBody
  import opened FixFrame
  import opened FixHeader
  import opened FixMessage

  /** Digits accumulated in a bounded integer with checked multiply and add. */
  method Accumulate(raw: bytes, limit: nat, bad: FixError, over: FixError) returns (r: Result<nat, FixError>)
    ensures r == ReadDigits(raw, 0, 0, limit, bad, over)
  {
    var value: nat := 0;
    for i := 0 to |raw|
      invariant ReadDigits(raw, 0, 0, limit, bad, over) == ReadDigits(raw, i, value, limit, bad, over)
    {
      if !IsDigit(raw[i]) { return Err(bad); }
      var product := value * 10;
      if product > limit { return Err(over); }
      var sum := product + (raw[i] - 48);
      if sum > limit { return Err(over); }
      value := sum;
    }
    return Ok(value);
  }

  /** Exactly the canonical prints of positive 32-bit integers. */
  method ParseTag(raw: bytes) returns (r: Result<nat, FixError>)
    ensures r == FixText.ParseTag(raw)
    ensures forall v: nat {:trigger PrintNat(v)} :: r == Ok(v) <==> raw == PrintNat(v) && 0 < v <= U32_MAX
  {
    forall v: nat { ParseTagIffPrinted(raw, v); }
    if raw == [] || raw[0] == 48 { return Err(TagNotCanonical); }
    r := Accumulate(raw, U32_MAX, TagNotDecimal, TagOverflow);
  }

  method ParseDecimal(raw: bytes) returns (r: Result<nat, FixError>)
    ensures r == FixText.ParseDecimal(raw)
    ensures forall v: nat {:trigger PrintNat(v)} :: r == Ok(v) <==> raw == PrintNat(v) && v <= USIZE_MAX
  {
    forall v: nat { ParseDecimalIffPrinted(raw, v); }
    if raw == [] || (|raw| > 1 && raw[0] == 48) { return Err(DecimalNotCanonical); }
    r := Accumulate(raw, USIZE_MAX, DecimalNotDecimal, DecimalOverflow);
  }

  /** One pass finds the first SOH and the first '=' before it. */
  method ScanField(frame: bytes, start: nat, limit: nat) returns (equals: Option<nat>, end: Option<nat>)
    requires start <= limit <= |frame|
    ensures end == Find(frame, start, limit, SOH)
    ensures end.Some? ==> equals == Find(frame, start, end.value, EQUALS)
  {
    equals, end := None, None;
    var i := start;
    while i < limit
      invariant start <= i <= limit
      invariant Find(frame, start, limit, SOH) == Find(frame, i, limit, SOH)
      invariant forall k :: start <= k < i ==> frame[k] != SOH
      invariant equals.None? ==> forall k :: start <= k < i ==> frame[k] != EQUALS
      invariant equals.Some? ==> start <= equals.value < i && frame[equals.value] == EQUALS
      invariant equals.Some? ==> forall k :: start <= k < equals.value ==> frame[k] != EQUALS
    {
      if frame[i] == EQUALS && equals.None? {
        equals := Some(i);
      } else if frame[i] == SOH {
        end := Some(i);
        if equals.Some? {
          FindFirst(frame, start, i, EQUALS, equals.value);
        } else {
          FindNone(frame, start, i, EQUALS);
        }
        return;
      }
      i := i + 1;
    }
  }

  lemma {:induction false} FindNone(s: bytes, i: nat, limit: nat, b: byte)
    requires i <= limit <= |s| && forall k :: i <= k < limit ==> s[k] != b
    ensures Find(s, i, limit, b) == None
    decreases limit - i
  {
    if i < limit { FindNone(s, i + 1, limit, b); }
  }

  method ParseField(frame: bytes, start: nat, limit: nat) returns (r: Result<(Field, nat), FixError>)
    requires start <= limit <= |frame|
    ensures r == FieldAt(frame, start, limit)
  {
    hide Find, FixText.ParseTag;
    var equals, end := ScanField(frame, start, limit);
    if end.None? { return Err(MissingSoh); }
    if equals.None? { return Err(MissingEquals); }
    var tag := ParseTag(frame[start..equals.value]);
    match tag
    case Err(e) => return Err(e);
    case Ok(v) => return Ok((Field(v, frame[equals.value + 1..end.value]), end.value + 1));
  }

  lemma {:induction false} DropTwice(s: seq<nat>, i: nat, j: nat)
    requires i + j <= |s|
    ensures s[i..][j..] == s[i + j..]
  {
  }

  /** The cursor loop over optional header fields. */
  method RequireStandardHeaderField(fields: seq<Field>, start: nat, tag: nat, optional: seq<nat>)
    returns (r: Result<nat, FixError>)
    requires start <= |fields|
    ensures r == RequireField(fields, start, tag, optional)
  {
    hide Position, RequireField;
    assert optional[0..] == optional;
    var cursor, optionalCursor := start, 0;
    ghost var rest := optional;
    while cursor < |fields| && fields[cursor].tag != tag
      invariant start <= cursor <= |fields| && optionalCursor <= |optional|
      invariant rest == optional[optionalCursor..]
      invariant RequireField(fields, start, tag, optional) == RequireField(fields, cursor, tag, rest)
    {
      SkipOptional(fields, cursor, tag, rest);
      var relative := Position(optional[optionalCursor..], fields[cursor].tag);
      if relative.None? { return Err(HeaderOrder(tag)); }
      DropTwice(optional, optionalCursor, relative.value + 1);
      optionalCursor := optionalCursor + (relative.value + 1);
      rest := optional[optionalCursor..];
      cursor := cursor + 1;
    }
    StopRequired(fields, cursor, tag, rest);
    if cursor == |fields| { return Err(HeaderNeeds(tag)); }
    if fields[cursor].value == [] { return Err(HeaderEmpty(tag)); }
    return Ok(cursor + 1);
  }

  /** Accepts exactly the ordered header grammar. */
  method ValidateStandardHeader(fields: seq<Field>) returns (r: Result<nat, FixError>)
    ensures r == ValidateHeader(fields)
    ensures r.Ok? <==> HeaderOk(fields)
  {
    HeaderIff(fields);
    hide HeaderOk, RequireField;
    if |fields| <= 2 || fields[2].tag != 35 { return Err(HeaderNeeds(35)); }
    if fields[2].value == [] { return Err(HeaderEmpty(35)); }
    r := RequireStandardHeaderField(fields, 3, 49, BEFORE_49);
    if r.Err? { return; }
    r := RequireStandardHeaderField(fields, r.value, 56, []);
    if r.Err? { return; }
    r := RequireStandardHeaderField(fields, r.value, 34, BEFORE_34);
    if r.Err? { return; }
    r := RequireStandardHeaderField(fields, r.value, 52, BEFORE_52);
  }

  method WrappingSum(s: bytes) returns (c: byte)
    ensures c == Checksum(s)
  {
    c := 0;
    for i := 0 to |s|
      invariant c == Checksum(s[..i])
    {
      assert s[..i + 1][..i] == s[..i];
      c := (c + s[i]) % 256;
    }
    assert s[..|s|] == s;
  }

  method VerifyTrailer(frame: bytes, at: nat) returns (r: Result<bytes, FixError>)
    requires at + TRAILER_LEN == |frame|
    ensures r == CheckTrailer(frame, at)
  {
    hide Checksum;
    var raw := frame[at + 3..at + 6];
    if frame[at..at + 3] != [49, 48, EQUALS] || frame[at + 6] != SOH { return Err(BadTrailer); }
    if !AllDigits(raw) { return Err(ChecksumNotDigits); }
    var expected := Denoted(raw[0], raw[1], raw[2]);
    if expected > 255 { return Err(ChecksumTooBig); }
    var actual := WrappingSum(frame[..at]);
    if actual != expected { return Err(ChecksumMismatch); }
    return Ok(raw);
  }

  method ReadFraming(frame: bytes) returns (r: Result<Framing, FixError>)
    ensures r == ParseFraming(frame)
  {
    hide FieldAt, FixText.ParseDecimal, CheckTrailer;
    if |frame| > MAX_FIX_FRAME_LEN { return Err(FrameTooLong); }
    var begin := ParseField(frame, 0, |frame|);
    if begin.Err? { return Err(BadBeginString(begin.error)); }
    var (beginString, afterBegin) := begin.value;
    if beginString.tag != 8 { return Err(NotBeginString); }
    if beginString.value != FIXT11 { return Err(WrongVersion); }
    var length := ParseField(frame, afterBegin, |frame|);
    if length.Err? { return Err(BadBodyLength(length.error)); }
    var (bodyLength, bodyStart) := length.value;
    if bodyLength.tag != 9 { return Err(NotBodyLength); }
    var bodyLen := ParseDecimal(bodyLength.value);
    if bodyLen.Err? { return Err(bodyLen.error); }
    if bodyStart + bodyLen.value > USIZE_MAX { return Err(BodyLengthOverflow); }
    var trailerStart := bodyStart + bodyLen.value;
    if trailerStart + TRAILER_LEN != |frame| { return Err(BodyLengthMismatch); }
    var trailer := VerifyTrailer(frame, trailerStart);
    if trailer.Err? { return Err(trailer.error); }
    return Ok(Framing(bodyLength, bodyStart, trailerStart));
  }

  /** The scalar arm of the body loop, on the vectors themselves. */
  method PushScalar(fields: seq<Field>, field: Field) returns (r: Result<(seq<Field>, Option<Group>), FixError>)
    ensures match AddScalar(Body(fields, [], [], None), field)
            case Err(e) => r == Err(e)
            case Ok(b) => b == Body(fields + [field], [], [], b.group) && r == Ok((b.fields, b.group))
  {
    hide FixText.ParseDecimal, GroupLeadTag;
    if field.tag == 269 || field.tag == 279 { return Err(LeadWithoutGroup); }
    if HasTag(fields, field.tag) { return Err(DuplicateTag(field.tag)); }
    var pushed := fields + [field];
    if field.tag != 268 { return Ok((pushed, None)); }
    var count := ParseDecimal(field.value);
    if count.Err? { return Err(count.error); }
    if count.value > MAX_GROUP_ENTRIES { return Err(TooManyEntries); }
    match GroupLeadTag(pushed)
    case Err(e) => return Err(e);
    case Ok(lead) => return Ok((pushed, Some(Group(count.value, lead))));
  }

  /** The body loop: scalars until tag 268 opens a group, then group entries. */
  method ReadBody(frame: bytes, bodyStart: nat, trailerStart: nat, front: seq<Field>)
    returns (r: Result<Body, FixError>)
    requires bodyStart <= trailerStart <= |frame|
    ensures r == ParseBody(frame, bodyStart, trailerStart, Start(front), 2)
  {
    hide AddField, FieldAt;
    var b := Start(front);
    var position, parsedFields := bodyStart, 2;
    while position < trailerStart
      invariant bodyStart <= position <= trailerStart && StartsInside(b)
      invariant b.group.None? ==> b.entryFields == [] && b.entryStarts == []
      invariant ParseBody(frame, bodyStart, trailerStart, Start(front), 2) ==
                ParseBody(frame, position, trailerStart, b, parsedFields)
    {
      parsedFields := parsedFields + 1;
      if parsedFields > MAX_FIELDS { return Err(TooManyFields); }
      var parsed := ParseField(frame, position, trailerStart);
      if parsed.Err? { return Err(parsed.error); }
      var (field, next) := parsed.value;
      var added := TakeField(b, field);
      if added.Err? { return Err(added.error); }
      position, b := next, added.value;
    }
    return Ok(b);
  }

  method TakeField(b: Body, field: Field) returns (r: Result<Body, FixError>)
    requires StartsInside(b) && (b.group.None? ==> b.entryFields == [] && b.entryStarts == [])
    ensures r == AddField(b, field)
    ensures r.Ok? && r.value.group.None? ==> r.value.entryFields == [] && r.value.entryStarts == []
  {
    hide HasTag, AddScalar;
    if 8 <= field.tag <= 10 { return Err(FramingTagInBody); }
    match b.group
    case None =>
      var pushed := PushScalar(b.fields, field);
      if pushed.Err? { return Err(pushed.error); }
      return Ok(b.(fields := pushed.value.0, group := pushed.value.1));
    case Some(Group(expected, lead)) =>
      if field.tag == 268 { return Err(SecondGroup); }
      if field.tag == lead {
        if |b.entryStarts| == expected { return Err(MoreEntries); }
        return Ok(b.(entryStarts := b.entryStarts + [|b.entryFields|], entryFields := b.entryFields + [field]));
      }
      if b.entryStarts == [] { return Err(EntryNeedsLead); }
      var start := b.entryStarts[|b.entryStarts| - 1];
      if HasTag(b.entryFields[start..], field.tag) { return Err(DuplicateTag(field.tag)); }
      return Ok(b.(entryFields := b.entryFields + [field]));
  }

  /** The whole decoder; `FixMessage.DecodeIff` says what it accepts. A parsed field never
      reaches past the trailer, so the source's last position check cannot fire. */
  method DecodeFrame(frame: bytes) returns (r: Result<Decoded, FixError>)
    ensures r == Decode(frame)
  {
    hide ParseFraming, ParseBody, ValidateHeader, HeaderOk;
    var framing := ReadFraming(frame);
    if framing.Err? { return Err(framing.error); }
    var Framing(length, bodyStart, trailerStart) := framing.value;
    FramingStarts(frame);
    var body := ReadBody(frame, bodyStart, trailerStart, [BEGIN, length]);
    if body.Err? { return Err(body.error); }
    var b := body.value;
    if b.group.Some? && |b.entryStarts| != b.group.value.count { return Err(FewerEntries); }
    var header := ValidateStandardHeader(b.fields);
    if header.Err? { return Err(header.error); }
    return Ok(Decoded(b.fields + [Field(10, frame[trailerStart + 3..trailerStart + 6])], b.entryFields, b.entryStarts));
  }

  lemma {:induction false} FramingStarts(s: bytes)
    requires ParseFraming(s).Ok?
    ensures ParseFraming(s).value.bodyStart <= ParseFraming(s).value.trailerStart <= |s|
  {
  }
}
