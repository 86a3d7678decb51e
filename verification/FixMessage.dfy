/**
 Whole FIXT.1.1 messages. `Decode` accepts a byte string exactly when it is the print
 of a well-formed message, and then returns that message.
 */
module FixMessage {
  import opened Common
  import opened FixText
  import opened FixBody
  import opened FixFrame
  import opened FixHeader

  datatype Decoded = Decoded(fields: seq<Field>, entryFields: seq<Field>, entryStarts: seq<nat>)

  /** The body loop: `count` fields have been parsed so far. */
  function ParseBody(s: bytes, pos: nat, limit: nat, b: Body, count: nat): (r: Result<Body, FixError>)
    requires pos <= limit <= |s| && StartsInside(b)
    decreases limit - pos
  {
    if pos == limit then Ok(b)
    else if count + 1 > MAX_FIELDS then Err(TooManyFields)
    else match FieldAt(s, pos, limit)
      case Err(e) => Err(e)
      case Ok((f, next)) =>
        match AddField(b, f)
        case Err(e) => Err(e)
        case Ok(b') => ParseBody(s, next, limit, b', count + 1)
  }

  function Complete(b: Body, raw: bytes): Result<Decoded, FixError> {
    if b.group.Some? && |b.entryStarts| != b.group.value.count then Err(FewerEntries)
    else match ValidateHeader(b.fields)
      case Err(e) => Err(e)
      case Ok(_) => Ok(Decoded(b.fields + [Field(10, raw)], b.entryFields, b.entryStarts))
  }

  function Decode(s: bytes): Result<Decoded, FixError> {
    match ParseFraming(s)
    case Err(e) => Err(e)
    case Ok(fr) =>
      match ParseBody(s, fr.bodyStart, fr.trailerStart, Start([BEGIN, fr.length]), 2)
      case Err(e) => Err(e)
      case Ok(b) => Complete(b, s[fr.trailerStart + 3..fr.trailerStart + 6])
  }

  // ---- messages and their print ----

  /** The scalar fields after tag 9, and the entries of the repeating group. */
  datatype Message = Message(scalars: seq<Field>, entries: seq<seq<Field>>)

  function PrintFields(fs: seq<Field>): bytes {
    if fs == [] then [] else PrintField(fs[0]) + PrintFields(fs[1..])
  }

  ghost function BodyFields(m: Message): seq<Field> { m.scalars + Concat(m.entries) }

  ghost function Print(m: Message): bytes { Framed(PrintFields(BodyFields(m))) }

  ghost function Scalars(m: Message): seq<Field> {
    [BEGIN, LengthField(|PrintFields(BodyFields(m))|)] + m.scalars
  }

  ghost predicate AllPrintable(fs: seq<Field>) { forall i :: 0 <= i < |fs| ==> Printable(fs[i]) }

  /** The lead tag belongs to the message type: 269 for "W", 279 for "X". */
  predicate LeadFor(msgType: bytes, lead: nat) { (msgType == [87] && lead == 269) || (msgType == [88] && lead == 279) }

  /** Entries are announced by tag 268, the last scalar; without it there are none. */
  ghost predicate Announced(fields: seq<Field>, es: seq<seq<Field>>)
    requires |fields| > 2
  {
    if !HasTag(fields, 268) then es == []
    else
      && fields[|fields| - 1] == Field(268, PrintNat(|es|)) && |es| <= 4096
      && exists lead: nat :: LeadFor(fields[2].value, lead) && EntriesOk(es, lead)
  }

  ghost predicate WellFormed(m: Message) {
    var fields := Scalars(m);
    && AllPrintable(BodyFields(m))
    && |Print(m)| <= 0x10_0000 && 2 + |BodyFields(m)| <= 16_384
    && Distinct(fields) && (forall i :: 0 <= i < |m.scalars| ==> ScalarTag(m.scalars[i].tag))
    && HeaderOk(fields)
    && Announced(fields, m.entries)
  }

  ghost function View(m: Message): Decoded {
    var text := PrintFields(BodyFields(m));
    Decoded(Scalars(m) + [Field(10, ThreeDigits(Checksum(Head(|text|) + text)))], Concat(m.entries), Offsets(m.entries))
  }

  // ---- the body loop ----

  lemma {:induction false} AddFirst(b: Body, fs: seq<Field>)
    requires StartsInside(b) && fs != []
    ensures AddAll(b, fs) == match AddField(b, fs[0]) case Err(e) => Err(e) case Ok(b') => AddAll(b', fs[1..])
  {
    AddAllSplit(b, [fs[0]], fs[1..]);
    assert [fs[0]] + fs[1..] == fs;
    assert [fs[0]][..0] == [];
    assert AddAll(b, [fs[0]]) == AddField(b, fs[0]);
  }

  /** Sound: the bytes consumed are the print of the fields added. */
  lemma {:induction false} ParseBodySound(s: bytes, pos: nat, limit: nat, b: Body, count: nat) returns (fs: seq<Field>)
    requires pos <= limit <= |s| && StartsInside(b) && count <= MAX_FIELDS && ParseBody(s, pos, limit, b, count).Ok?
    ensures AddAll(b, fs) == Ok(ParseBody(s, pos, limit, b, count).value)
    ensures s[pos..limit] == PrintFields(fs) && AllPrintable(fs) && count + |fs| <= MAX_FIELDS
    decreases limit - pos
  {
    hide AddField, FieldAt, PrintField;
    if pos == limit {
      fs := [];
    } else {
      var (f, next) := FieldAt(s, pos, limit).value;
      FieldAtSound(s, pos, limit);
      var b' := AddField(b, f).value;
      var rest := ParseBodySound(s, next, limit, b', count + 1);
      fs := [f] + rest;
      assert fs[0] == f && fs[1..] == rest;
      AddFirst(b, fs);
      hide AddAll;
      assert s[pos..limit] == s[pos..next] + s[next..limit];
    }
  }

  /** Complete: printed fields that the group machine accepts are parsed. */
  lemma {:induction false} ParseBodyComplete(s: bytes, pos: nat, limit: nat, b: Body, count: nat, fs: seq<Field>)
    requires pos <= limit <= |s| && StartsInside(b) && count + |fs| <= MAX_FIELDS
    requires s[pos..limit] == PrintFields(fs) && AllPrintable(fs) && AddAll(b, fs).Ok?
    ensures ParseBody(s, pos, limit, b, count) == AddAll(b, fs)
    decreases |fs|
  {
    hide AddField, FieldAt, PrintField;
    if fs != [] {
      var p := PrintField(fs[0]);
      var next := pos + |p|;
      FirstField(s, pos, limit, fs);
      AddFirst(b, fs);
      hide AddAll;
      ParseBodyComplete(s, next, limit, AddField(b, fs[0]).value, count + 1, fs[1..]);
    }
  }

  lemma {:induction false} FirstField(s: bytes, pos: nat, limit: nat, fs: seq<Field>)
    requires pos <= limit <= |s| && fs != [] && s[pos..limit] == PrintFields(fs) && AllPrintable(fs)
    ensures var next := pos + |PrintField(fs[0])|;
            && pos < next <= limit && FieldAt(s, pos, limit) == Ok((fs[0], next))
            && s[next..limit] == PrintFields(fs[1..])
  {
    var p, r := PrintField(fs[0]), PrintFields(fs[1..]);
    hide FieldAt, PrintField, PrintFields;
    assert s[pos..limit] == p + r by { assert PrintFields(fs) == p + r by { PrintFirst(fs); } }
    assert s[pos..pos + |p|] == (p + r)[..|p|];
    assert s[pos + |p|..limit] == (p + r)[|p|..];
    FieldAtComplete(s, pos, limit, fs[0]);
  }

  lemma {:induction false} PrintFirst(fs: seq<Field>)
    requires fs != []
    ensures PrintFields(fs) == PrintField(fs[0]) + PrintFields(fs[1..])
  {
  }

  // ---- group and lead tag ----

  lemma {:induction false} FindTagAt(fs: seq<Field>, i: nat)
    requires i < |fs| && Distinct(fs)
    ensures FindTag(fs, fs[i].tag) == Some(fs[i])
  {
    if i > 0 {
      assert fs[0].tag != fs[i].tag;
      assert forall k :: 0 <= k < |fs| - 1 ==> fs[1..][k] == fs[k + 1];
      FindTagAt(fs[1..], i - 1);
    }
  }

  lemma {:induction false} LeadIff(fs: seq<Field>, lead: nat)
    requires |fs| > 2 && Distinct(fs) && fs[2].tag == 35
    ensures GroupLeadTag(fs) == Ok(lead) <==> LeadFor(fs[2].value, lead)
  {
    FindTagAt(fs, 2);
  }

  /** The decoder's final count check turns `GroupOk` into `Announced`. */
  lemma {:induction false} FullGroup(fs: seq<Field>, es: seq<seq<Field>>, group: Option<Group>)
    requires |fs| > 2 && Distinct(fs) && fs[2].tag == 35 && GroupOk(fs, es, group)
    requires group.Some? ==> |es| == group.value.count
    ensures Announced(fs, es)
  {
    hide GroupLeadTag, ParseDecimal, Distinct, EntriesOk;
    if group.Some? {
      var n := |fs| - 1;
      ParseDecimalIffPrinted(fs[n].value, |es|);
      LeadIff(fs, group.value.lead);
      assert HasTag(fs, 268);
      assert fs[n] == Field(268, PrintNat(|es|));
      assert LeadFor(fs[2].value, group.value.lead) && EntriesOk(es, group.value.lead);
    }
  }

  lemma {:induction false} GroupOf(fs: seq<Field>, es: seq<seq<Field>>) returns (group: Option<Group>)
    requires |fs| > 2 && Distinct(fs) && fs[2].tag == 35 && Announced(fs, es)
    ensures GroupOk(fs, es, group) && (group.Some? ==> |es| == group.value.count)
  {
    hide GroupLeadTag, ParseDecimal, Distinct, EntriesOk;
    if HasTag(fs, 268) {
      var lead: nat :| LeadFor(fs[2].value, lead) && EntriesOk(es, lead);
      ParseDecimalIffPrinted(fs[|fs| - 1].value, |es|);
      LeadIff(fs, lead);
      group := Some(Group(|es|, lead));
    } else {
      group := None;
    }
  }

  // ---- the theorems ----

  ghost predicate Agrees(s: bytes, d: Decoded, m: Message) { WellFormed(m) && s == Print(m) && d == View(m) }

  lemma {:induction false} FrontDistinct(f: Field)
    requires f.tag == 9
    ensures Distinct([BEGIN, f]) && !HasTag([BEGIN, f], 268)
  {
  }

  /** An accepted body is a list of scalars followed by entries. */
  lemma {:induction false} BodyShape(front: seq<Field>, fs: seq<Field>, b: Body) returns (m: Message)
    requires |front| == 2 && Distinct(front) && !HasTag(front, 268)
    requires AddAll(Start(front), fs) == Ok(b) && ValidateHeader(b.fields).Ok?
    requires b.group.Some? ==> |b.entryStarts| == b.group.value.count
    ensures BodyFields(m) == fs && b.fields == front + m.scalars
    ensures b.entryFields == Concat(m.entries) && b.entryStarts == Offsets(m.entries)
    ensures Distinct(b.fields) && (forall i :: 0 <= i < |m.scalars| ==> ScalarTag(m.scalars[i].tag))
    ensures HeaderOk(b.fields) && Announced(b.fields, m.entries)
  {
    var es := AddAllSound(front, fs);
    hide AddAll, ValidateHeader, Segment, Concat, Offsets;
    HeaderIff(b.fields);
    assert |b.entryStarts| == |es| by { StandsLength(b, es); }
    FullGroup(b.fields, es, b.group);
    m := Message(b.fields[2..], es);
    assert b.fields[..2] == front;
  }

  /** Soundness: whatever is accepted is the print of a well-formed message, and the
      result is that message. */
  lemma {:induction false} DecodeSound(s: bytes) returns (m: Message)
    requires Decode(s).Ok?
    ensures Agrees(s, Decode(s).value, m)
  {
    var fr := ParseFraming(s).value;
    FramingFacts(s);
    hide ParseFraming, ParseBody, ValidateHeader, Checksum, Head, Framed;
    var front := [BEGIN, fr.length];
    var b := ParseBody(s, fr.bodyStart, fr.trailerStart, Start(front), 2).value;
    var fs := ParseBodySound(s, fr.bodyStart, fr.trailerStart, Start(front), 2);
    FrontDistinct(fr.length);
    m := BodyShape(front, fs, b);
    SoundAgrees(s, fr, b, m);
  }

  lemma {:induction false} SoundAgrees(s: bytes, fr: Framing, b: Body, m: Message)
    requires fr.bodyStart <= fr.trailerStart && fr.trailerStart + TRAILER_LEN == |s| && |s| <= MAX_FIX_FRAME_LEN
    requires var text := PrintFields(BodyFields(m));
             && s[fr.bodyStart..fr.trailerStart] == text && s == Framed(text) && fr.length == LengthField(|text|)
             && s[fr.trailerStart + 3..fr.trailerStart + 6] == ThreeDigits(Checksum(Head(|text|) + text))
    requires AllPrintable(BodyFields(m)) && 2 + |BodyFields(m)| <= MAX_FIELDS
    requires b.fields == [BEGIN, fr.length] + m.scalars && b.entryFields == Concat(m.entries)
      && b.entryStarts == Offsets(m.entries)
    requires Distinct(b.fields) && (forall i :: 0 <= i < |m.scalars| ==> ScalarTag(m.scalars[i].tag))
    requires HeaderOk(b.fields) && Announced(b.fields, m.entries)
    ensures WellFormed(m) && s == Print(m)
    ensures View(m) == Decoded(b.fields + [Field(10, s[fr.trailerStart + 3..fr.trailerStart + 6])], b.entryFields,
      b.entryStarts)
  {
    hide Checksum, Head, Framed, HeaderOk, Announced, Distinct, AllPrintable, PrintFields, Concat, Offsets,
      BodyFields, PrintNat, ThreeDigits;
  }

  lemma {:induction false} DecodeStages(s: bytes, fr: Framing, b: Body)
    requires ParseFraming(s) == Ok(fr)
      && ParseBody(s, fr.bodyStart, fr.trailerStart, Start([BEGIN, fr.length]), 2) == Ok(b)
    ensures Decode(s) == Complete(b, s[fr.trailerStart + 3..fr.trailerStart + 6])
  {
    hide ParseFraming, ParseBody, Complete;
  }

  /** Decoding a printed frame comes down to the fields in it. */
  lemma {:induction false} DecodePrinted(fs: seq<Field>, text: bytes, start: Body)
    requires AllPrintable(fs) && text == PrintFields(fs) && |Framed(text)| <= MAX_FIX_FRAME_LEN
      && 2 + |fs| <= MAX_FIELDS
    requires start == Start([BEGIN, LengthField(|text|)]) && AddAll(start, fs).Ok?
    ensures Decode(Framed(text)) == Complete(AddAll(start, fs).value, ThreeDigits(Checksum(Head(|text|) + text)))
  {
    hide ParseFraming, Checksum, Head, Framed, ParseBody, PrintFields, AddAll, PrintNat, AllPrintable, ThreeDigits,
      Complete, Decode;
    FramingComplete(text);
    var n, h, s := |text|, |Head(|text|)|, Framed(text);
    ParseBodyComplete(s, h, h + n, start, 2, fs);
    DecodeStages(s, Framing(LengthField(n), h, h + n), AddAll(start, fs).value);
  }

  /** Completeness: every well-formed message decodes from its print to itself. */
  lemma {:induction false} DecodeComplete(m: Message)
    requires WellFormed(m)
    ensures Decode(Print(m)) == Ok(View(m))
  {
    BodyAccepted(m);
    hide Checksum, Head, Framed, PrintFields, AddAll, PrintNat, AllPrintable, ThreeDigits, Complete, Decode,
      BodyFields, View, Scalars;
    var text := PrintFields(BodyFields(m));
    DecodePrinted(BodyFields(m), text, Start([BEGIN, LengthField(|text|)]));
  }

  lemma {:induction false} BodyAccepted(m: Message)
    requires WellFormed(m)
    ensures var text := PrintFields(BodyFields(m));
            var r := AddAll(Start([BEGIN, LengthField(|text|)]), BodyFields(m));
            && r.Ok? && r.value.fields == Scalars(m)
            && Complete(r.value, ThreeDigits(Checksum(Head(|text|) + text))) == Ok(View(m))
  {
    var fields := Scalars(m);
    var front := [BEGIN, LengthField(|PrintFields(BodyFields(m))|)];
    hide Checksum, Head, Framed, HeaderOk, Segment, ValidateHeader, ThreeDigits;
    hide Distinct, PrintFields, Concat, Offsets, AddAll, PrintNat, Announced, GroupOk, AllPrintable;
    HeaderIff(fields);
    HeaderHasMsgType(fields);
    FrontDistinct(front[1]);
    var group := GroupOf(fields, m.entries);
    AddAllComplete(front, m.scalars, m.entries, group);
    OffsetsLength(m.entries);
  }

  lemma {:induction false} HeaderHasMsgType(fields: seq<Field>)
    requires HeaderOk(fields)
    ensures |fields| > 2 && fields[2].tag == 35
  {
  }

  lemma {:induction false} OffsetsLength(es: seq<seq<Field>>)
    ensures |Offsets(es)| == |es|
  {
  }

  /** Decoding succeeds with `d` exactly for the print of a well-formed message that `d` shows. */
  lemma {:induction false} DecodeIff(s: bytes, d: Decoded)
    ensures Decode(s) == Ok(d) <==> exists m :: Agrees(s, d, m)
  {
    if Decode(s) == Ok(d) {
      var m := DecodeSound(s);
    }
    forall m | Agrees(s, d, m) ensures Decode(s) == Ok(d) {
      DecodeComplete(m);
    }
  }
}
