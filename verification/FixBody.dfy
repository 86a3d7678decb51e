/**
 The body of a FIX message: scalar fields with distinct tags, then the repeating
 group that tag 268 announces. The decoder keeps group entries as one flat list
 with start offsets; here that list is related to a list of entries.
 */
module FixBody {
  import opened Common
  import opened FixText

  const MAX_GROUP_ENTRIES := 4096
  const MAX_FIELDS := 16_384

  datatype Group = Group(count: nat, lead: nat)

  datatype Body = Body(fields: seq<Field>, entryFields: seq<Field>, entryStarts: seq<nat>, group: Option<Group>)

  predicate HasTag(fs: seq<Field>, tag: nat) { exists i :: 0 <= i < |fs| && fs[i].tag == tag }

  function FindTag(fs: seq<Field>, tag: nat): Option<Field> {
    if fs == [] then None else if fs[0].tag == tag then Some(fs[0]) else FindTag(fs[1..], tag)
  }

  /** The tag that starts an entry, chosen by MsgType: "W" or "X". */
  function GroupLeadTag(fs: seq<Field>): Result<nat, FixError> {
    match FindTag(fs, 35)
    case Some(f) => if f.value == [87] then Ok(269) else if f.value == [88] then Ok(279) else Err(GroupNeedsMsgType)
    case None => Err(GroupNeedsMsgType)
  }

  function AddScalar(b: Body, f: Field): Result<Body, FixError> {
    if f.tag == 269 || f.tag == 279 then Err(LeadWithoutGroup)
    else if HasTag(b.fields, f.tag) then Err(DuplicateTag(f.tag))
    else
      var fields := b.fields + [f];
      if f.tag != 268 then Ok(b.(fields := fields))
      else match ParseDecimal(f.value)
        case Err(e) => Err(e)
        case Ok(count) =>
          if count > MAX_GROUP_ENTRIES then Err(TooManyEntries)
          else match GroupLeadTag(fields)
            case Err(e) => Err(e)
            case Ok(lead) => Ok(b.(fields := fields, group := Some(Group(count, lead))))
  }

  function AddEntryField(b: Body, g: Group, f: Field): Result<Body, FixError>
    requires forall i :: 0 <= i < |b.entryStarts| ==> b.entryStarts[i] <= |b.entryFields|
  {
    if f.tag == 268 then Err(SecondGroup)
    else if f.tag == g.lead then
      if |b.entryStarts| == g.count then Err(MoreEntries)
      else Ok(b.(entryStarts := b.entryStarts + [|b.entryFields|], entryFields := b.entryFields + [f]))
    else if b.entryStarts == [] then Err(EntryNeedsLead)
    else if HasTag(b.entryFields[b.entryStarts[|b.entryStarts| - 1]..], f.tag) then Err(DuplicateTag(f.tag))
    else Ok(b.(entryFields := b.entryFields + [f]))
  }

  predicate StartsInside(b: Body) { forall i :: 0 <= i < |b.entryStarts| ==> b.entryStarts[i] <= |b.entryFields| }

  /** One body field. */
  function AddField(b: Body, f: Field): (r: Result<Body, FixError>)
    requires StartsInside(b)
    ensures r.Ok? ==> StartsInside(r.value)
  {
    if 8 <= f.tag <= 10 then Err(FramingTagInBody)
    else match b.group
      case None => AddScalar(b, f)
      case Some(g) => AddEntryField(b, g, f)
  }

  function AddAll(b: Body, fs: seq<Field>): (r: Result<Body, FixError>)
    requires StartsInside(b)
    ensures r.Ok? ==> StartsInside(r.value)
  {
    if fs == [] then Ok(b)
    else match AddAll(b, fs[..|fs| - 1])
      case Err(e) => Err(e)
      case Ok(b') => AddField(b', fs[|fs| - 1])
  }

  // ---- entries ----

  ghost function Concat(es: seq<seq<Field>>): seq<Field> {
    if es == [] then [] else Concat(es[..|es| - 1]) + es[|es| - 1]
  }

  ghost function Offsets(es: seq<seq<Field>>): seq<nat> {
    seq(|es|, i requires 0 <= i < |es| => |Concat(es[..i])|)
  }

  /** The flat list with start offsets stands for the entries `es`. */
  ghost predicate Stands(b: Body, es: seq<seq<Field>>) {
    b.entryFields == Concat(es) && b.entryStarts == Offsets(es)
  }

  lemma {:induction false} ConcatSnoc(es: seq<seq<Field>>, e: seq<Field>)
    ensures Concat(es + [e]) == Concat(es) + e
    ensures Offsets(es + [e]) == Offsets(es) + [|Concat(es)|]
  {
    assert (es + [e])[..|es|] == es;
    assert forall i :: 0 <= i < |es| ==> (es + [e])[..i] == es[..i];
  }

  /** A lead field opens a new entry. */
  lemma {:induction false} OpenEntry(b: Body, es: seq<seq<Field>>, f: Field)
    requires Stands(b, es)
    ensures Stands(b.(entryStarts := b.entryStarts + [|b.entryFields|], entryFields := b.entryFields + [f]), es + [[f]])
  {
    ConcatSnoc(es, [f]);
  }

  ghost function ExtendLast(es: seq<seq<Field>>, f: Field): seq<seq<Field>>
    requires es != []
  {
    es[..|es| - 1] + [es[|es| - 1] + [f]]
  }

  /** Any other field joins the last entry. */
  lemma {:induction false} JoinEntry(b: Body, es: seq<seq<Field>>, f: Field)
    requires Stands(b, es) && es != []
    ensures b.entryStarts != [] && b.entryStarts[|b.entryStarts| - 1] <= |b.entryFields|
    ensures b.entryFields[b.entryStarts[|b.entryStarts| - 1]..] == es[|es| - 1]
    ensures Stands(b.(entryFields := b.entryFields + [f]), ExtendLast(es, f))
  {
    var n := |es| - 1;
    var p, e := es[..n], es[n];
    assert es == p + [e];
    ConcatSnoc(p, e);
    ConcatSnoc(p, e + [f]);
    ConcatAssociative(Concat(p), e, [f]);
  }

  /** `Decoded::entry`: the slice from one start to the next. */
  function Entry(entryFields: seq<Field>, entryStarts: seq<nat>, i: nat): seq<Field>
    requires i < |entryStarts| && entryStarts[i] <= |entryFields|
    requires i + 1 < |entryStarts| ==> entryStarts[i] <= entryStarts[i + 1] <= |entryFields|
  {
    entryFields[entryStarts[i]..if i + 1 < |entryStarts| then entryStarts[i + 1] else |entryFields|]
  }

  lemma {:induction false} ConcatPrefix(es: seq<seq<Field>>, k: nat)
    requires k <= |es|
    ensures Concat(es[..k]) <= Concat(es)
    ensures k < |es| ==> |Concat(es[..k])| + |es[k]| <= |Concat(es)|
    ensures k < |es| ==> Concat(es)[|Concat(es[..k])|..|Concat(es[..k])| + |es[k]|] == es[k]
    decreases |es| - k
  {
    if k == |es| {
      assert es[..k] == es;
    } else {
      assert es[..k + 1][..k] == es[..k];
      ConcatPrefix(es, k + 1);
    }
  }

  /** Entries are recovered from the flat form by slicing, always within bounds. */
  lemma {:induction false} EntryRecovers(b: Body, es: seq<seq<Field>>, i: nat)
    requires Stands(b, es) && i < |es|
    ensures |b.entryStarts| == |es| && b.entryStarts[i] <= |b.entryFields|
    ensures i + 1 < |b.entryStarts| ==> b.entryStarts[i] <= b.entryStarts[i + 1] <= |b.entryFields|
    ensures Entry(b.entryFields, b.entryStarts, i) == es[i]
  {
    ConcatPrefix(es, i);
    assert es[..i + 1][..i] == es[..i];
    if i + 1 < |es| {
      ConcatPrefix(es, i + 1);
    } else {
      assert es[..i + 1] == es;
    }
  }

  // ---- what an accepted body looks like ----

  ghost predicate Distinct(fs: seq<Field>) { forall i, j :: 0 <= i < j < |fs| ==> fs[i].tag != fs[j].tag }

  predicate ScalarTag(tag: nat) { !(8 <= tag <= 10) && tag != 269 && tag != 279 }

  predicate EntryTag(tag: nat) { !(8 <= tag <= 10) && tag != 268 }

  /** An entry starts with the lead tag and repeats no tag. */
  ghost predicate EntryOk(e: seq<Field>, lead: nat) {
    && e != [] && e[0].tag == lead && Distinct(e)
    && forall i :: 0 <= i < |e| ==> EntryTag(e[i].tag)
  }

  ghost predicate EntriesOk(es: seq<seq<Field>>, lead: nat) { forall i :: 0 <= i < |es| ==> EntryOk(es[i], lead) }

  /** Scalar tags are distinct; only a final tag 268 opens a group, and its count bounds the entries. */
  ghost predicate GroupOk(fields: seq<Field>, es: seq<seq<Field>>, group: Option<Group>) {
    match group
    case None => es == [] && !HasTag(fields, 268)
    case Some(g) =>
      && fields != [] && fields[|fields| - 1].tag == 268
      && ParseDecimal(fields[|fields| - 1].value) == Ok(g.count) && g.count <= MAX_GROUP_ENTRIES
      && GroupLeadTag(fields) == Ok(g.lead)
      && |es| <= g.count && EntriesOk(es, g.lead)
  }

  /** The body built from the framing fields `pre` and the body fields `fs`. */
  ghost predicate Built(b: Body, es: seq<seq<Field>>, pre: seq<Field>, fs: seq<Field>) {
    && Stands(b, es) && GroupOk(b.fields, es, b.group)
    && Distinct(b.fields) && pre <= b.fields
    && b.fields[|pre|..] + b.entryFields == fs
    && forall i :: |pre| <= i < |b.fields| ==> ScalarTag(b.fields[i].tag)
  }

  function Start(pre: seq<Field>): Body { Body(pre, [], [], None) }

  lemma {:induction false} DistinctSnoc(fs: seq<Field>, f: Field)
    requires Distinct(fs) && !HasTag(fs, f.tag)
    ensures Distinct(fs + [f])
  {
  }

  lemma {:induction false} DistinctSplit(fs: seq<Field>, f: Field)
    requires Distinct(fs + [f])
    ensures Distinct(fs) && !HasTag(fs, f.tag)
  {
    var t := fs + [f];
    assert forall i :: 0 <= i < |fs| ==> t[i] == fs[i];
    assert t[|fs|] == f;
  }

  lemma {:induction false} AddScalarSound(b: Body, es: seq<seq<Field>>, pre: seq<Field>, fs: seq<Field>, f: Field)
    requires StartsInside(b) && Built(b, es, pre, fs) && b.group.None? && ScalarTag(f.tag) && AddScalar(b, f).Ok?
    ensures Built(AddScalar(b, f).value, es, pre, fs + [f])
  {
    var b' := AddScalar(b, f).value;
    DistinctSnoc(b.fields, f);
    assert Concat([]) == [];
    assert b.entryFields == [];
    assert b'.fields[|pre|..] == b.fields[|pre|..] + [f];
    hide ParseDecimal, GroupLeadTag;
  }

  lemma {:induction false} AddEntryFieldSound(b: Body, es: seq<seq<Field>>, pre: seq<Field>, fs: seq<Field>,
    g: Group, f: Field)
    returns (es': seq<seq<Field>>)
    requires StartsInside(b) && Built(b, es, pre, fs) && b.group == Some(g) && EntryTag(f.tag)
      && AddEntryField(b, g, f).Ok?
    ensures Built(AddEntryField(b, g, f).value, es', pre, fs + [f])
  {
    hide ParseDecimal, GroupLeadTag, Distinct, Concat, Offsets;
    ConcatAssociative(b.fields[|pre|..], b.entryFields, [f]);
    if f.tag == g.lead {
      OpenEntry(b, es, f);
      es' := es + [[f]];
      assert EntryOk([f], g.lead) by { assert Distinct([f]) by { OneDistinct(f); } }
      assert |b.entryStarts| == |es| by { StandsLength(b, es); }
    } else {
      StandsLength(b, es);
      JoinEntry(b, es, f);
      es' := ExtendLast(es, f);
      var e := es[|es| - 1];
      DistinctSnoc(e, f);
      assert EntryOk(e + [f], g.lead);
    }
  }

  lemma {:induction false} OneDistinct(f: Field)
    ensures Distinct([f])
  {
  }

  lemma {:induction false} StandsLength(b: Body, es: seq<seq<Field>>)
    requires Stands(b, es)
    ensures |b.entryStarts| == |es|
  {
  }

  /** Soundness of the group machine: whatever it accepts has the shape above, and no
      field is dropped or reordered. */
  lemma {:induction false} AddAllSound(pre: seq<Field>, fs: seq<Field>) returns (es: seq<seq<Field>>)
    requires Distinct(pre) && !HasTag(pre, 268) && AddAll(Start(pre), fs).Ok?
    ensures Built(AddAll(Start(pre), fs).value, es, pre, fs)
  {
    if fs == [] {
      es := [];
      assert Offsets([]) == [] && Concat([]) == [];
    } else {
      var n := |fs| - 1;
      var b := AddAll(Start(pre), fs[..n]).value;
      es := AddAllSound(pre, fs[..n]);
      assert fs == fs[..n] + [fs[n]];
      hide Built, AddScalar, AddEntryField;
      match b.group
      case None =>
        assert ScalarTag(fs[n].tag) by { NotALead(b, fs[n]); }
        AddScalarSound(b, es, pre, fs[..n], fs[n]);
      case Some(g) =>
        assert EntryTag(fs[n].tag) by { NotASecondGroup(b, g, fs[n]); }
        es := AddEntryFieldSound(b, es, pre, fs[..n], g, fs[n]);
    }
  }

  lemma {:induction false} NotALead(b: Body, f: Field)
    requires StartsInside(b) && b.group.None? && AddField(b, f).Ok?
    ensures ScalarTag(f.tag)
  {
  }

  lemma {:induction false} NotASecondGroup(b: Body, g: Group, f: Field)
    requires StartsInside(b) && b.group == Some(g) && AddField(b, f).Ok?
    ensures EntryTag(f.tag)
  {
  }

  // ---- every body of that shape is accepted ----

  lemma {:induction false} AddAllSplit(b: Body, xs: seq<Field>, ys: seq<Field>)
    requires StartsInside(b)
    ensures AddAll(b, xs + ys) == match AddAll(b, xs) case Err(e) => Err(e) case Ok(b') => AddAll(b', ys)
  {
    hide AddField;
    if ys == [] {
      assert xs + ys == xs;
    } else {
      var n := |ys| - 1;
      assert (xs + ys)[..|xs + ys| - 1] == xs + ys[..n];
      AddAllSplit(b, xs, ys[..n]);
    }
  }

  /** Scalars are all taken; the group opens exactly if the last one is tag 268. */
  lemma {:induction false} AddScalars(pre: seq<Field>, scalars: seq<Field>, group: Option<Group>)
    requires Distinct(pre + scalars) && !HasTag(pre, 268)
    requires forall i :: 0 <= i < |scalars| ==> ScalarTag(scalars[i].tag)
    requires GroupOk(pre + scalars, [], group)
    ensures AddAll(Start(pre), scalars) == Ok(Body(pre + scalars, [], [], group))
  {
    if scalars == [] {
      assert pre + scalars == pre;
    } else {
      var n := |scalars| - 1;
      var p, f := scalars[..n], scalars[n];
      assert pre + scalars == (pre + p) + [f];
      DistinctSplit(pre + p, f);
      EarlierIsNotGroup(pre + p, f, group);
      hide Distinct, HasTag, AddScalar;
      AddScalars(pre, p, None);
      AddLastScalar(pre + p, f, group);
    }
  }

  lemma {:induction false} EarlierIsNotGroup(fs: seq<Field>, f: Field, group: Option<Group>)
    requires Distinct(fs + [f]) && GroupOk(fs + [f], [], group)
    ensures !HasTag(fs, 268)
  {
    forall i | 0 <= i < |fs| ensures fs[i].tag != 268 {
      assert (fs + [f])[i] == fs[i] && (fs + [f])[|fs|] == f;
    }
  }

  lemma {:induction false} AddLastScalar(fs: seq<Field>, f: Field, group: Option<Group>)
    requires GroupOk(fs + [f], [], group) && !HasTag(fs, f.tag) && ScalarTag(f.tag)
    ensures AddScalar(Start(fs), f) == Ok(Body(fs + [f], [], [], group))
  {
    hide ParseDecimal, GroupLeadTag;
    assert (fs + [f])[|fs|] == f;
    if group.None? { assert f.tag != 268; }
  }

  /** The fields of one entry, added in order, make one entry. */
  lemma {:induction false} AddEntry(b: Body, es: seq<seq<Field>>, g: Group, e: seq<Field>, k: nat)
    requires StartsInside(b) && Stands(b, es) && b.group == Some(g) && |es| < g.count && EntryOk(e, g.lead)
      && 1 <= k <= |e|
    ensures AddAll(b, e[..k]).Ok?
    ensures var b' := AddAll(b, e[..k]).value; Stands(b', es + [e[..k]]) && b'.fields == b.fields && b'.group == b.group
  {
    var f := e[k - 1];
    assert e[..k][..k - 1] == e[..k - 1];
    StandsLength(b, es);
    if k == 1 {
      assert e[..0] == [] && e[..1] == [f];
      OpenEntry(b, es, f);
    } else {
      AddEntry(b, es, g, e, k - 1);
      var b1, es1 := AddAll(b, e[..k - 1]).value, es + [e[..k - 1]];
      JoinEntry(b1, es1, f);
      assert es1[..|es1| - 1] == es && es1[|es1| - 1] == e[..k - 1];
      assert ExtendLast(es1, f) == es + [e[..k]] by { assert e[..k - 1] + [f] == e[..k]; }
      assert !HasTag(e[..k - 1], f.tag);
      assert e[0].tag != f.tag;
      hide Stands, Offsets, Concat, EntryOk;
    }
  }

  lemma {:induction false} AddEntries(b: Body, g: Group, es: seq<seq<Field>>)
    requires StartsInside(b) && Stands(b, []) && b.group == Some(g) && |es| <= g.count && EntriesOk(es, g.lead)
    ensures AddAll(b, Concat(es)).Ok?
    ensures var b' := AddAll(b, Concat(es)).value; Stands(b', es) && b'.fields == b.fields && b'.group == b.group
  {
    if es != [] {
      var n := |es| - 1;
      var p, e := es[..n], es[n];
      AddEntries(b, g, p);
      var b1 := AddAll(b, Concat(p)).value;
      AddAllSplit(b, Concat(p), e);
      assert e[..|e|] == e && es == p + [e];
      hide Stands, AddAll, EntryOk;
      AddEntry(b1, p, g, e, |e|);
    }
  }

  /** Completeness of the group machine. */
  lemma {:induction false} AddAllComplete(pre: seq<Field>, scalars: seq<Field>, es: seq<seq<Field>>,
    group: Option<Group>)
    requires Distinct(pre + scalars) && !HasTag(pre, 268)
    requires forall i :: 0 <= i < |scalars| ==> ScalarTag(scalars[i].tag)
    requires GroupOk(pre + scalars, es, group)
    ensures AddAll(Start(pre), scalars + Concat(es)) == Ok(Body(pre + scalars, Concat(es), Offsets(es), group))
  {
    assert GroupOk(pre + scalars, [], group);
    AddScalars(pre, scalars, group);
    AddAllSplit(Start(pre), scalars, Concat(es));
    var b := Body(pre + scalars, [], [], group);
    match group
    case None =>
      assert Concat(es) == [] && Offsets(es) == [];
      assert AddAll(b, []) == Ok(b);
    case Some(g) =>
      assert Concat([]) == [] && Offsets([]) == [];
      AddEntries(b, g, es);
  }
}
