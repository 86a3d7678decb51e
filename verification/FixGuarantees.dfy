/** What callers of the FIX decoder may rely on. */
module FixGuarantees {
  import opened Common
  import opened FixText
  import opened FixBody
  import opened FixFrame
  import opened FixHeader
  import opened FixMessage

  /** Scalars before tag 10, then the entry fields, then tag 10. */
  function PrintDecoded(d: Decoded): bytes
    requires d.fields != []
  {
    var n := |d.fields| - 1;
    PrintFields(d.fields[..n]) + PrintFields(d.entryFields) + PrintField(d.fields[n])
  }

  lemma {:induction false} PrintFieldsAppend(xs: seq<Field>, ys: seq<Field>)
    ensures PrintFields(xs + ys) == PrintFields(xs) + PrintFields(ys)
    decreases |xs|
  {
    hide PrintField;
    if xs == [] {
      assert xs + ys == ys;
    } else {
      assert (xs + ys)[1..] == xs[1..] + ys && (xs + ys)[0] == xs[0];
      PrintFieldsAppend(xs[1..], ys);
      ConcatAssociative(PrintField(xs[0]), PrintFields(xs[1..]), PrintFields(ys));
    }
  }

  lemma {:induction false} PrintTwo(f: Field, g: Field)
    ensures PrintFields([f, g]) == PrintField(f) + PrintField(g)
  {
    hide PrintField;
    PrintFirst([f, g]);
    PrintFirst([g]);
    assert [f, g][1..] == [g] && [g][1..] == [];
    assert PrintFields([]) == [];
  }

  lemma {:induction false} TrailerIsField(c: byte)
    ensures Trailer(c) == PrintField(Field(10, ThreeDigits(c)))
  {
    assert PrintNat(1) == [49];
    assert PrintNat(10) == [49, 48];
  }

  /** The bytes of a frame around `text`: the version, the length of the text, the text,
      and the sum of all bytes before the trailer modulo 256 in three digits. */
  lemma {:induction false} FrameLayout(text: bytes)
    ensures var front := [56, 61, 70, 73, 88, 84, 46, 49, 46, 49, 1] + [57, 61] + PrintNat(|text|) + [1] + text;
            var c := Sum(front) % 256;
            Framed(text) == front + [49, 48, 61, 48 + c / 100, 48 + c / 10 % 10, 48 + c % 10, 1]
  {
    var n := |text|;
    var front := [56, 61, 70, 73, 88, 84, 46, 49, 46, 49, 1] + [57, 61] + PrintNat(n) + [1] + text;
    assert PrintNat(8) == [56] && PrintNat(9) == [57];
    hide PrintNat;
    assert Head(n) + text == front;
    ChecksumIsSum(front);
    hide Checksum, Sum, Head;
  }

  lemma {:induction false} ViewPrints(m: Message)
    ensures View(m).fields != [] && PrintDecoded(View(m)) == Print(m)
  {
    var d, text := View(m), PrintFields(BodyFields(m));
    var c := Checksum(Head(|text|) + text);
    var front := [BEGIN, LengthField(|text|)];
    var k := |d.fields| - 1;
    assert d.fields[..k] == front + m.scalars && d.fields[k] == Field(10, ThreeDigits(c));
    TrailerIsField(c);
    PrintTwo(BEGIN, front[1]);
    PrintFieldsAppend(front, m.scalars);
    PrintFieldsAppend(m.scalars, Concat(m.entries));
    hide PrintFields, PrintField, Checksum, Concat, Offsets, ThreeDigits, Trailer, PrintNat;
    ConcatAssociative(Head(|text|), PrintFields(m.scalars), PrintFields(Concat(m.entries)));
  }

  /** Printing an accepted result reproduces the input byte for byte. */
  lemma {:induction false} DecodeThenPrint(s: bytes)
    requires Decode(s).Ok?
    ensures Decode(s).value.fields != [] && PrintDecoded(Decode(s).value) == s
  {
    hide Decode, PrintDecoded, View, Print, WellFormed;
    var m := DecodeSound(s);
    ViewPrints(m);
  }

  lemma {:induction false} DecodeInjective(s: bytes, t: bytes)
    requires Decode(s).Ok? && Decode(s) == Decode(t)
    ensures s == t
  {
    hide Decode;
    DecodeThenPrint(s);
    DecodeThenPrint(t);
  }

  /** The flat form determines the entries. */
  lemma {:induction false} SameEntries(es: seq<seq<Field>>, es': seq<seq<Field>>)
    requires Concat(es) == Concat(es') && Offsets(es) == Offsets(es')
    ensures es == es'
  {
    var b := Body([], Concat(es), Offsets(es), None);
    StandsLength(b, es);
    StandsLength(b, es');
    hide Concat, Offsets;
    forall i | 0 <= i < |es| ensures es[i] == es'[i] {
      EntryRecovers(b, es, i);
      EntryRecovers(b, es', i);
    }
  }

  lemma {:induction false} SameView(m: Message, m': Message)
    requires View(m) == View(m')
    ensures m == m'
  {
    var d := View(m);
    var k := |d.fields| - 1;
    SameEntries(m.entries, m'.entries);
    hide Concat, Offsets, BodyFields, PrintFields, PrintNat, ThreeDigits, Checksum;
    assert d.fields[2..k] == m.scalars && d.fields[2..k] == m'.scalars;
  }

  /** Different well-formed messages have different prints. */
  lemma {:induction false} PrintInjective(m: Message, m': Message)
    requires WellFormed(m) && WellFormed(m') && Print(m) == Print(m')
    ensures m == m'
  {
    hide Decode, WellFormed, Print, View;
    DecodeComplete(m);
    DecodeComplete(m');
    SameView(m, m');
  }

  /** No accepted frame is a proper prefix of another. */
  lemma {:induction false} PrefixFree(s: bytes, t: bytes)
    requires Decode(s).Ok? && Decode(t).Ok? && s <= t
    ensures s == t
  {
    hide ParseFraming, ParseBody;
    FramingPrefixFree(s, t);
  }

  /** Every single-byte substitution in an accepted frame is rejected. */
  lemma {:induction false} SubstitutionRejected(s: bytes, i: nat, b: byte)
    requires Decode(s).Ok? && i < |s| && b != s[i]
    ensures Decode(s[i := b]).Err?
  {
    hide ParseFraming, ParseBody;
    SubstitutionBreaks(s, i, b);
  }

  /** Slicing entry `i` stays in bounds. */
  predicate InBounds(d: Decoded, i: nat) {
    && i < |d.entryStarts| && d.entryStarts[i] <= |d.entryFields|
    && (i + 1 < |d.entryStarts| ==> d.entryStarts[i] <= d.entryStarts[i + 1] <= |d.entryFields|)
  }

  /** The slices partition the flat list. */
  ghost predicate Partitioned(d: Decoded, es: seq<seq<Field>>) {
    && |es| == |d.entryStarts| && Concat(es) == d.entryFields
    && forall i :: 0 <= i < |es| ==> InBounds(d, i) && Entry(d.entryFields, d.entryStarts, i) == es[i]
  }

  lemma {:induction false} ScalarsDistinct(fs: seq<Field>, f: Field)
    requires Distinct(fs) && |fs| >= 2 && fs[0].tag == 8 && fs[1].tag == 9 && f.tag == 10
    requires forall i :: 2 <= i < |fs| ==> ScalarTag(fs[i].tag)
    ensures Distinct(fs + [f])
  {
    forall i | 0 <= i < |fs| ensures fs[i].tag != 10 {
    }
    DistinctSnoc(fs, f);
  }

  lemma {:induction false} SlicesPartition(d: Decoded, es: seq<seq<Field>>)
    requires d.entryFields == Concat(es) && d.entryStarts == Offsets(es)
    ensures Partitioned(d, es)
  {
    var b := Body(d.fields, d.entryFields, d.entryStarts, None);
    StandsLength(b, es);
    forall i | 0 <= i < |es| ensures InBounds(d, i) && Entry(d.entryFields, d.entryStarts, i) == es[i] {
      EntryRecovers(b, es, i);
    }
  }

  /** The structure of every accepted message: scalar tags are pairwise distinct; the
      entry slices are in bounds and partition the entry fields; tag 268 is the last
      scalar before tag 10 and its value is their number; each entry starts with the
      lead tag that MsgType chooses and repeats no tag. */
  lemma {:induction false} GroupStructure(s: bytes) returns (es: seq<seq<Field>>)
    requires Decode(s).Ok?
    ensures var d := Decode(s).value;
            && |d.fields| > 3 && Distinct(d.fields) && Partitioned(d, es)
            && Announced(d.fields[..|d.fields| - 1], es)
  {
    var d := Decode(s).value;
    var m := DecodeSound(s);
    es := m.entries;
    hide Decode, Print, BodyFields, PrintFields, PrintNat, ThreeDigits, Checksum, Segment, Announced, HeaderOk;
    hide Concat, Offsets, Distinct, Partitioned, AllPrintable;
    var fields, k := Scalars(m), |d.fields| - 1;
    assert d.fields[..k] == fields;
    HeaderLong(fields);
    ScalarsDistinct(fields, d.fields[k]);
    SlicesPartition(d, es);
  }

  lemma {:induction false} HeaderLong(fields: seq<Field>)
    requires HeaderOk(fields)
    ensures |fields| > 3
  {
  }
}
