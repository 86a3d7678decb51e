/** The ordered standard header: tags 35, 49, 56, 34 and 52, with optional fields between them. */
module FixHeader {
  import opened Common
  import opened FixText

  function Position(tags: seq<nat>, tag: nat): (r: Option<nat>)
    ensures r.Some? ==> r.value < |tags| && tags[r.value] == tag
  {
    if tags == [] then None
    else if tags[0] == tag then Some(0)
    else match Position(tags[1..], tag) case None => None case Some(p) => Some(p + 1)
  }

  /** Consume optional fields, in list order, up to and including the required one. */
  function RequireField(fields: seq<Field>, cursor: nat, tag: nat, optional: seq<nat>): (r: Result<nat, FixError>)
    ensures r.Ok? ==> cursor < r.value <= |fields|
    decreases |fields| - cursor
  {
    if cursor >= |fields| then Err(HeaderNeeds(tag))
    else if fields[cursor].tag == tag then
      if fields[cursor].value == [] then Err(HeaderEmpty(tag)) else Ok(cursor + 1)
    else match Position(optional, fields[cursor].tag)
      case None => Err(HeaderOrder(tag))
      case Some(p) => RequireField(fields, cursor + 1, tag, optional[p + 1..])
  }

  const BEFORE_49 := [1128, 1156, 1129]
  const BEFORE_34 := [115, 128, 90, 91]
  const BEFORE_52 := [50, 142, 57, 143, 116, 144, 129, 145, 43, 97]

  function ValidateHeader(fields: seq<Field>): Result<nat, FixError> {
    if |fields| <= 2 || fields[2].tag != 35 then Err(HeaderNeeds(35))
    else if fields[2].value == [] then Err(HeaderEmpty(35))
    else match RequireField(fields, 3, 49, BEFORE_49)
      case Err(e) => Err(e)
      case Ok(c1) =>
        match RequireField(fields, c1, 56, [])
        case Err(e) => Err(e)
        case Ok(c2) =>
          match RequireField(fields, c2, 34, BEFORE_34)
          case Err(e) => Err(e)
          case Ok(c3) => RequireField(fields, c3, 52, BEFORE_52)
  }

  // ---- the grammar, declaratively ----

  ghost predicate Subsequence(tags: seq<nat>, all: seq<nat>)
    decreases |all|
  {
    || tags == []
    || (all != [] && ((tags[0] == all[0] && Subsequence(tags[1..], all[1..])) || Subsequence(tags, all[1..])))
  }

  ghost function Tags(fs: seq<Field>): seq<nat> {
    seq(|fs|, i requires 0 <= i < |fs| => fs[i].tag)
  }

  /** Fields `c` up to but excluding `c'` are some of the optional ones, in order, then
      the required one with a value. */
  ghost predicate Segment(fields: seq<Field>, c: nat, tag: nat, optional: seq<nat>, c': nat) {
    && c < c' <= |fields|
    && fields[c' - 1].tag == tag && fields[c' - 1].value != []
    && Subsequence(Tags(fields[c..c' - 1]), optional)
  }

  ghost predicate HeaderOk(fields: seq<Field>) {
    && |fields| > 2 && fields[2].tag == 35 && fields[2].value != []
    && exists c1: nat, c2: nat, c3: nat, c4: nat ::
         && Segment(fields, 3, 49, [1128, 1156, 1129], c1)
         && Segment(fields, c1, 56, [], c2)
         && Segment(fields, c2, 34, [115, 128, 90, 91], c3)
         && Segment(fields, c3, 52, [50, 142, 57, 143, 116, 144, 129, 145, 43, 97], c4)
  }

  /** Skipping more of the list only loses subsequences. */
  lemma {:induction false} SubsequenceDrop(tags: seq<nat>, all: seq<nat>, k: nat)
    requires k <= |all| && Subsequence(tags, all[k..])
    ensures Subsequence(tags, all)
    decreases k
  {
    if k == 0 {
      assert all[0..] == all;
    } else {
      assert all[1..][k - 1..] == all[k..];
      SubsequenceDrop(tags, all[1..], k - 1);
    }
  }

  lemma {:induction false} SubsequenceTail(tags: seq<nat>, all: seq<nat>)
    requires Subsequence(tags, all) && tags != []
    ensures Subsequence(tags[1..], all)
    decreases |all|
  {
    if tags[0] == all[0] && Subsequence(tags[1..], all[1..]) {
      SubsequenceDrop(tags[1..], all, 1);
    } else {
      SubsequenceTail(tags, all[1..]);
      SubsequenceDrop(tags[1..], all, 1);
    }
  }

  /** Taking the first match is never worse: the greedy scan is exact. */
  lemma {:induction false} GreedyIsExact(tags: seq<nat>, all: seq<nat>)
    requires tags != []
    ensures Subsequence(tags, all) <==>
      Position(all, tags[0]).Some? && Subsequence(tags[1..], all[Position(all, tags[0]).value + 1..])
    decreases |all|
  {
    if all != [] {
      if tags[0] == all[0] {
        if Subsequence(tags, all[1..]) { SubsequenceTail(tags, all[1..]); }
      } else {
        GreedyIsExact(tags, all[1..]);
        var p := Position(all[1..], tags[0]);
        if p.Some? { assert all[1..][p.value + 1..] == all[p.value + 2..]; }
      }
    }
  }

  lemma {:induction false} SubsequenceMember(tags: seq<nat>, all: seq<nat>)
    requires Subsequence(tags, all) && tags != []
    ensures tags[0] in all
    decreases |all|
  {
    if !(tags[0] == all[0]) { SubsequenceMember(tags, all[1..]); }
  }

  /** A segment that starts at the required field ends there. */
  lemma {:induction false} SegmentAtRequired(fields: seq<Field>, c: nat, tag: nat, optional: seq<nat>, c': nat)
    requires tag !in optional && c < |fields| && fields[c].tag == tag
    ensures Segment(fields, c, tag, optional, c') <==> c' == c + 1 && fields[c].value != []
  {
    if c' == c + 1 {
      assert Tags(fields[c..c' - 1]) == [];
    } else if c + 1 < c' <= |fields| && Subsequence(Tags(fields[c..c' - 1]), optional) {
      assert Tags(fields[c..c' - 1])[0] == tag;
      SubsequenceMember(Tags(fields[c..c' - 1]), optional);
    }
  }

  /** A segment that starts at another field goes on behind the first optional tag it matches. */
  lemma {:induction false} SegmentAtOptional(fields: seq<Field>, c: nat, tag: nat, optional: seq<nat>, c': nat)
    requires c < |fields| && fields[c].tag != tag
    ensures var p := Position(optional, fields[c].tag);
            Segment(fields, c, tag, optional, c') <==>
            p.Some? && Segment(fields, c + 1, tag, optional[p.value + 1..], c')
  {
    if c + 1 < c' <= |fields| {
      var tags := Tags(fields[c..c' - 1]);
      assert tags[0] == fields[c].tag && tags[1..] == Tags(fields[c + 1..c' - 1]);
      hide Subsequence, Tags, Position;
      GreedyIsExact(tags, optional);
    }
  }

  lemma {:induction false} SkipOptional(fields: seq<Field>, cursor: nat, tag: nat, optional: seq<nat>)
    requires cursor < |fields| && fields[cursor].tag != tag
    ensures RequireField(fields, cursor, tag, optional) ==
            match Position(optional, fields[cursor].tag)
            case None => Err(HeaderOrder(tag))
            case Some(p) => RequireField(fields, cursor + 1, tag, optional[p + 1..])
  {
  }

  lemma {:induction false} StopRequired(fields: seq<Field>, cursor: nat, tag: nat, optional: seq<nat>)
    requires cursor <= |fields| && (cursor < |fields| ==> fields[cursor].tag == tag)
    ensures RequireField(fields, cursor, tag, optional) ==
            if cursor == |fields| then Err(HeaderNeeds(tag))
            else if fields[cursor].value == [] then Err(HeaderEmpty(tag)) else Ok(cursor + 1)
  {
  }

  /** Behind the last field there is neither a field nor a segment. */
  lemma {:induction false} NoSegmentBehind(fields: seq<Field>, c: nat, tag: nat, optional: seq<nat>, c': nat)
    requires c >= |fields|
    ensures RequireField(fields, c, tag, optional).Err? && !Segment(fields, c, tag, optional, c')
  {
    hide Subsequence, Tags;
  }

  /** The cursor loop accepts exactly the segments of the grammar. */
  lemma {:induction false} RequireIffSegment(fields: seq<Field>, c: nat, tag: nat, optional: seq<nat>, c': nat)
    requires tag !in optional
    ensures RequireField(fields, c, tag, optional) == Ok(c') <==> Segment(fields, c, tag, optional, c')
    decreases |fields| - c
  {
    hide RequireField, Segment, Position;
    if c >= |fields| {
      NoSegmentBehind(fields, c, tag, optional, c');
    } else if fields[c].tag == tag {
      StopRequired(fields, c, tag, optional);
      SegmentAtRequired(fields, c, tag, optional, c');
    } else {
      SkipOptional(fields, c, tag, optional);
      SegmentAtOptional(fields, c, tag, optional, c');
      var p := Position(optional, fields[c].tag);
      if p.Some? { RequireIffSegment(fields, c + 1, tag, optional[p.value + 1..], c'); }
    }
  }

  /** Header validation accepts exactly the declared grammar. */
  lemma {:induction false} HeaderIff(fields: seq<Field>)
    ensures ValidateHeader(fields).Ok? <==> HeaderOk(fields)
  {
    hide Segment, RequireField;
    forall c, c': nat ensures RequireField(fields, c, 49, BEFORE_49) == Ok(c') <==>
      Segment(fields, c, 49, BEFORE_49, c') {
      RequireIffSegment(fields, c, 49, BEFORE_49, c');
    }
    forall c, c': nat ensures RequireField(fields, c, 56, []) == Ok(c') <==> Segment(fields, c, 56, [], c') {
      RequireIffSegment(fields, c, 56, [], c');
    }
    forall c, c': nat ensures RequireField(fields, c, 34, BEFORE_34) == Ok(c') <==>
      Segment(fields, c, 34, BEFORE_34, c') {
      RequireIffSegment(fields, c, 34, BEFORE_34, c');
    }
    forall c, c': nat ensures RequireField(fields, c, 52, BEFORE_52) == Ok(c') <==>
      Segment(fields, c, 52, BEFORE_52, c') {
      RequireIffSegment(fields, c, 52, BEFORE_52, c');
    }
  }
}
