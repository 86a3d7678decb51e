/** Canonical decimal integers and `tag=value<SOH>` fields of a FIX frame. */
module FixText {
  import opened Common

  const SOH: byte := 1
  const EQUALS: byte := 61
  const U32_MAX := 0xFFFF_FFFF

  datatype FixError =
    | TagNotCanonical | TagNotDecimal | TagOverflow
    | DecimalNotCanonical | DecimalNotDecimal | DecimalOverflow
    | MissingSoh | MissingEquals
    | FrameTooLong
    | BadBeginString(cause: FixError) | NotBeginString | WrongVersion
    | BadBodyLength(cause: FixError) | NotBodyLength | BodyLengthOverflow | BodyLengthMismatch
    | BadTrailer | ChecksumNotDigits | ChecksumTooBig | ChecksumMismatch
    | TooManyFields | FramingTagInBody | LeadWithoutGroup | DuplicateTag(tag: nat)
    | TooManyEntries | GroupNeedsMsgType | SecondGroup | MoreEntries | EntryNeedsLead | FewerEntries
    | HeaderNeeds(tag: nat) | HeaderEmpty(tag: nat) | HeaderOrder(tag: nat)

  datatype Field = Field(tag: nat, value: bytes)

  // ---- decimal integers ----

  predicate IsDigit(b: byte) { 48 <= b <= 57 }

  predicate AllDigits(s: bytes) { forall i :: 0 <= i < |s| ==> IsDigit(s[i]) }

  /** Canonical decimal text: no leading zero except for zero itself. */
  function PrintNat(n: nat): bytes {
    if n < 10 then [48 + n] else PrintNat(n / 10) + [48 + n % 10]
  }

  /** Read digits from `i` on; stop at the first byte that is no digit or makes the value exceed `limit`. */
  function ReadDigits(raw: bytes, i: nat, acc: nat, limit: nat, bad: FixError, over: FixError): Result<nat, FixError>
    requires i <= |raw|
    decreases |raw| - i
  {
    if i == |raw| then Ok(acc)
    else if !IsDigit(raw[i]) then Err(bad)
    else if acc * 10 + (raw[i] - 48) > limit then Err(over)
    else ReadDigits(raw, i + 1, acc * 10 + (raw[i] - 48), limit, bad, over)
  }

  function ParseTag(raw: bytes): Result<nat, FixError> {
    if raw == [] || raw[0] == 48 then Err(TagNotCanonical)
    else ReadDigits(raw, 0, 0, U32_MAX, TagNotDecimal, TagOverflow)
  }

  function ParseDecimal(raw: bytes): Result<nat, FixError> {
    if raw == [] || (|raw| > 1 && raw[0] == 48) then Err(DecimalNotCanonical)
    else ReadDigits(raw, 0, 0, USIZE_MAX, DecimalNotDecimal, DecimalOverflow)
  }

  lemma {:induction false} PrintNatShape(n: nat)
    ensures PrintNat(n) != [] && AllDigits(PrintNat(n))
    ensures PrintNat(n)[0] == 48 <==> n == 0
    ensures |PrintNat(n)| > 1 <==> n >= 10
  {
    if n >= 10 { PrintNatShape(n / 10); }
  }

  /** Value of digits read after `acc`. */
  function ValueFrom(raw: bytes, i: nat, acc: nat): nat
    requires i <= |raw| && AllDigits(raw)
    decreases |raw| - i
  {
    if i == |raw| then acc else ValueFrom(raw, i + 1, acc * 10 + (raw[i] - 48))
  }

  lemma {:induction false} ValueGrows(raw: bytes, i: nat, acc: nat)
    requires i <= |raw| && AllDigits(raw)
    ensures ValueFrom(raw, i, acc) >= acc
    decreases |raw| - i
  {
    if i < |raw| { ValueGrows(raw, i + 1, acc * 10 + (raw[i] - 48)); }
  }

  /** Reading succeeds exactly on digits whose value is within the limit. */
  lemma {:induction false} ReadIsValue(raw: bytes, i: nat, acc: nat, limit: nat, bad: FixError, over: FixError)
    requires i <= |raw| && acc <= limit && AllDigits(raw[..i])
    ensures ReadDigits(raw, i, acc, limit, bad, over).Ok? <==> AllDigits(raw) && ValueFrom(raw, i, acc) <= limit
    ensures ReadDigits(raw, i, acc, limit, bad, over).Ok? ==>
      ReadDigits(raw, i, acc, limit, bad, over).value == ValueFrom(raw, i, acc)
    decreases |raw| - i
  {
    if i == |raw| {
      assert raw[..i] == raw;
    } else if IsDigit(raw[i]) {
      var acc' := acc * 10 + (raw[i] - 48);
      assert raw[..i + 1] == raw[..i] + [raw[i]];
      if acc' <= limit {
        ReadIsValue(raw, i + 1, acc', limit, bad, over);
      } else if AllDigits(raw) {
        ValueGrows(raw, i + 1, acc');
      }
    }
  }

  lemma {:induction false} ValueSnoc(raw: bytes, d: byte, i: nat, acc: nat)
    requires i <= |raw| && AllDigits(raw) && IsDigit(d)
    ensures AllDigits(raw + [d]) && ValueFrom(raw + [d], i, acc) == ValueFrom(raw, i, acc) * 10 + (d - 48)
    decreases |raw| - i
  {
    var s := raw + [d];
    assert forall k :: 0 <= k < |raw| ==> s[k] == raw[k];
    if i < |raw| {
      ValueSnoc(raw, d, i + 1, acc * 10 + (raw[i] - 48));
    } else {
      assert s[i] == d;
      assert ValueFrom(s, i + 1, acc * 10 + (d - 48)) == acc * 10 + (d - 48);
    }
  }

  lemma {:induction false} ValueOfPrinted(n: nat)
    ensures AllDigits(PrintNat(n)) && ValueFrom(PrintNat(n), 0, 0) == n
  {
    PrintNatShape(n);
    if n < 10 {
      assert ValueFrom([48 + n], 1, n) == n;
    } else {
      ValueOfPrinted(n / 10);
      ValueSnoc(PrintNat(n / 10), 48 + n % 10, 0, 0);
    }
  }

  /** Canonical digits are the print of their value. */
  lemma {:induction false} PrintOfValue(raw: bytes)
    requires raw != [] && AllDigits(raw) && (|raw| > 1 ==> raw[0] != 48)
    ensures raw == PrintNat(ValueFrom(raw, 0, 0))
    ensures |raw| > 1 ==> ValueFrom(raw, 0, 0) >= 10
    decreases |raw|
  {
    var n := |raw| - 1;
    if n == 0 {
      assert ValueFrom(raw, 1, raw[0] - 48) == raw[0] - 48;
      assert raw == [raw[0]];
    } else {
      var p, d := raw[..n], raw[n];
      PrintOfValue(p);
      assert raw == p + [d];
      ValueSnoc(p, d, 0, 0);
      if |p| == 1 {
        assert ValueFrom(p, 1, p[0] - 48) == p[0] - 48;
      }
      var v := ValueFrom(p, 0, 0);
      assert v >= 1;
      assert (v * 10 + (d - 48)) / 10 == v && (v * 10 + (d - 48)) % 10 == d - 48;
    }
  }

  /** A tag is accepted exactly when it is the canonical print of a positive 32-bit integer. */
  lemma {:induction false} ParseTagIffPrinted(raw: bytes, v: nat)
    ensures ParseTag(raw) == Ok(v) <==> raw == PrintNat(v) && 0 < v <= U32_MAX
  {
    hide PrintNat, ReadDigits, ValueFrom;
    ReadIsValue(raw, 0, 0, U32_MAX, TagNotDecimal, TagOverflow);
    if ParseTag(raw) == Ok(v) {
      PrintOfValue(raw);
      PrintNatShape(v);
    }
    if raw == PrintNat(v) && 0 < v <= U32_MAX {
      PrintNatShape(v);
      ValueOfPrinted(v);
    }
  }

  lemma {:induction false} ParseDecimalIffPrinted(raw: bytes, v: nat)
    ensures ParseDecimal(raw) == Ok(v) <==> raw == PrintNat(v) && v <= USIZE_MAX
  {
    hide PrintNat, ReadDigits, ValueFrom;
    ReadIsValue(raw, 0, 0, USIZE_MAX, DecimalNotDecimal, DecimalOverflow);
    if ParseDecimal(raw) == Ok(v) {
      PrintOfValue(raw);
    }
    if raw == PrintNat(v) && v <= USIZE_MAX {
      PrintNatShape(v);
      ValueOfPrinted(v);
    }
  }

  // ---- fields ----

  /** First offset of byte `b` in `i..limit`. */
  function Find(s: bytes, i: nat, limit: nat, b: byte): (r: Option<nat>)
    requires i <= limit <= |s|
    ensures r.Some? ==> i <= r.value < limit && s[r.value] == b
    decreases limit - i
  {
    if i == limit then None else if s[i] == b then Some(i) else Find(s, i + 1, limit, b)
  }

  function FieldAt(s: bytes, start: nat, limit: nat): (r: Result<(Field, nat), FixError>)
    requires start <= limit <= |s|
    ensures r.Ok? ==> start + 2 <= r.value.1 <= limit
  {
    match Find(s, start, limit, SOH)
    case None => Err(MissingSoh)
    case Some(end) =>
      match Find(s, start, end, EQUALS)
      case None => Err(MissingEquals)
      case Some(eq) =>
        match ParseTag(s[start..eq])
        case Err(e) => Err(e)
        case Ok(tag) => Ok((Field(tag, s[eq + 1..end]), end + 1))
  }

  function PrintField(f: Field): bytes { PrintNat(f.tag) + [61] + f.value + [1] }

  /** A field the wire can carry: a positive 32-bit tag, and no SOH in the value. */
  predicate Printable(f: Field) { 0 < f.tag <= 0xFFFF_FFFF && 1 !in f.value }

  lemma {:induction false} FindFirst(s: bytes, i: nat, limit: nat, b: byte, at: nat)
    requires i <= at < limit <= |s| && s[at] == b
    requires forall k :: i <= k < at ==> s[k] != b
    ensures Find(s, i, limit, b) == Some(at)
    decreases at - i
  {
    if i < at { FindFirst(s, i + 1, limit, b, at); }
  }

  lemma {:induction false} FoundFirst(s: bytes, i: nat, limit: nat, b: byte)
    requires i <= limit <= |s| && Find(s, i, limit, b).Some?
    ensures forall k :: i <= k < Find(s, i, limit, b).value ==> s[k] != b
    decreases limit - i
  {
    if s[i] != b { FoundFirst(s, i + 1, limit, b); }
  }

  lemma {:induction false} PrintFieldLayout(f: Field)
    ensures var p := PrintField(f);
            var q := |PrintNat(f.tag)|;
            && |p| == q + 2 + |f.value|
            && p[..q] == PrintNat(f.tag) && p[q] == EQUALS && p[q + 1..q + 1 + |f.value|] == f.value
              && p[|p| - 1] == SOH
            && q >= 1
  {
    PrintNatShape(f.tag);
    hide PrintNat;
  }

  /** Whatever `FieldAt` accepts is the print of the field it returns. */
  lemma {:induction false} FieldAtSound(s: bytes, start: nat, limit: nat)
    requires start <= limit <= |s| && FieldAt(s, start, limit).Ok?
    ensures var (f, next) := FieldAt(s, start, limit).value;
            s[start..next] == PrintField(f) && Printable(f)
  {
    hide ParseTag, PrintNat, Find;
    var end := Find(s, start, limit, SOH).value;
    var eq := Find(s, start, end, EQUALS).value;
    var f := FieldAt(s, start, limit).value.0;
    FoundFirst(s, start, limit, SOH);
    ParseTagIffPrinted(s[start..eq], f.tag);
    FieldParts(s, start, eq, end);
    assert forall k :: eq < k < end ==> s[k] == f.value[k - eq - 1];
  }

  lemma {:induction false} FieldParts(s: bytes, start: nat, eq: nat, end: nat)
    requires start <= eq < end < |s|
    ensures s[start..end + 1] == s[start..eq] + [s[eq]] + s[eq + 1..end] + [s[end]]
  {
  }

  /** Any printed field is found again, whatever surrounds it. */
  lemma {:induction false} FieldAtComplete(s: bytes, start: nat, limit: nat, f: Field)
    requires start + |PrintField(f)| <= limit <= |s| && Printable(f)
    requires s[start..start + |PrintField(f)|] == PrintField(f)
    ensures FieldAt(s, start, limit) == Ok((f, start + |PrintField(f)|))
  {
    var q := |PrintNat(f.tag)|;
    var eq, end := start + q, start + |PrintField(f)| - 1;
    PlacedField(s, start, f);
    hide PrintNat, ParseTag, PrintField;
    FindFirst(s, start, limit, SOH, end);
    FindFirst(s, start, end, EQUALS, eq);
    ParseTagIffPrinted(s[start..eq], f.tag);
  }

  /** Where the marks and parts of a printed field lie. */
  lemma {:induction false} PlacedField(s: bytes, start: nat, f: Field)
    requires start + |PrintField(f)| <= |s| && Printable(f)
    requires s[start..start + |PrintField(f)|] == PrintField(f)
    ensures var eq, end := start + |PrintNat(f.tag)|, start + |PrintField(f)| - 1;
            && start < eq < end && s[eq] == EQUALS && s[end] == SOH
            && (forall k :: start <= k < end ==> s[k] != SOH)
            && (forall k :: start <= k < eq ==> s[k] != EQUALS)
            && s[start..eq] == PrintNat(f.tag) && s[eq + 1..end] == f.value
  {
    hide PrintNat, PrintField;
    var p, q := PrintField(f), |PrintNat(f.tag)|;
    PrintFieldLayout(f);
    TagHasNoMark(f);
    PlacedParts(s, start, p, q);
    forall k | start <= k < start + |p| - 1 ensures s[k] != SOH { ValueHasNoSoh(f, k - start); }
    forall k | start <= k < start + q ensures s[k] != EQUALS { assert s[k] == p[..q][k - start]; }
  }

  lemma {:induction false} PlacedParts(s: bytes, start: nat, p: bytes, q: nat)
    requires start + |p| <= |s| && s[start..start + |p|] == p && q + 1 < |p|
    ensures forall k :: start <= k < start + |p| ==> s[k] == p[k - start]
    ensures s[start..start + q] == p[..q] && s[start + q + 1..start + |p| - 1] == p[q + 1..|p| - 1]
  {
    forall k | start <= k < start + |p| ensures s[k] == p[k - start] {
      assert s[k] == s[start..start + |p|][k - start];
    }
  }

  lemma {:induction false} TagHasNoMark(f: Field)
    ensures forall k :: 0 <= k < |PrintNat(f.tag)| ==> PrintNat(f.tag)[k] != SOH && PrintNat(f.tag)[k] != EQUALS
  {
    PrintNatShape(f.tag);
    hide PrintNat;
  }

  lemma {:induction false} ValueHasNoSoh(f: Field, k: nat)
    requires Printable(f) && k < |PrintField(f)| - 1
    ensures PrintField(f)[k] != SOH
  {
    PrintFieldLayout(f);
    TagHasNoMark(f);
    hide PrintNat;
    var q := |PrintNat(f.tag)|;
    if k < q {
      assert PrintField(f)[k] == PrintField(f)[..q][k];
    } else if k > q {
      assert PrintField(f)[k] == PrintField(f)[q + 1..q + 1 + |f.value|][k - q - 1];
    }
  }
}
