/**
 Attribute blocks as anybody may write them: which are accepted and what is read from them,
 which are refused and with which subcode. Codes, flag bits, lengths and subcodes are given
 here as the numbers RFC 4271 sections 4.3 and 6.3, RFC 4456 and RFC 4760 assign to them.
 */
module ForeignAttributes {
  import opened BgpTypes
  import opened AsPathCodec
  import opened PrefixCodec
  import opened UpdateCodec

  // ---------------------------------------------------------------- on the wire

  predicate Optional(flags: U8) { flags >= 0x80 }

  predicate Transitive(flags: U8) { flags % 0x80 >= 0x40 }

  predicate LongLength(flags: U8) { flags % 0x20 >= 0x10 }

  lemma FlagMeanings(flags: U8)
    ensures HasBit(flags, OPTIONAL) <==> Optional(flags)
    ensures HasBit(flags, TRANSITIVE) <==> Transitive(flags)
    ensures HasBit(flags, EXTENDED) <==> LongLength(flags)
  {}

  /** A value its length field can count, whichever length field the flags ask for. */
  predicate Countable(x: RawAttr) {
    |x.value| < if LongLength(x.flags) then 0x1_0000 else 0x100
  }

  function LengthField(x: RawAttr): seq<U8>
    requires Countable(x)
  {
    if LongLength(x.flags) then [|x.value| / 0x100, |x.value| % 0x100] else [|x.value|]
  }

  /** One attribute in octets. */
  function Wire(x: RawAttr): seq<U8>
    requires Countable(x)
  {
    [x.flags, x.code] + LengthField(x) + x.value
  }

  predicate AllCountable(xs: seq<RawAttr>) {
    forall i :: 0 <= i < |xs| ==> Countable(xs[i])
  }

  function Wires(xs: seq<RawAttr>): seq<U8>
    requires AllCountable(xs)
  {
    if xs == [] then [] else Wire(xs[0]) + Wires(xs[1..])
  }

  /** What is left when no whole attribute is: too little for a header, or for the length it announces. */
  predicate Broken(b: seq<U8>) {
    || |b| == 1
    || (|b| >= 2 && LongLength(b[0]) && (|b| < 4 || (b[2] as int) * 0x100 + b[3] > |b| - 4))
    || (|b| >= 2 && !LongLength(b[0]) && (|b| < 3 || b[2] > |b| - 3))
  }

  // ------------------------------------------------------------ AS_PATH octets

  /** The 32-bit number at `i`, most significant octet first. */
  function NumberAt(b: seq<U8>, i: nat): int
    requires i + 4 <= |b|
  {
    (b[i] as int) * 0x100_0000 + (b[i + 1] as int) * 0x1_0000 + (b[i + 2] as int) * 0x100 + b[i + 3]
  }

  function AsnAt(b: seq<U8>, i: nat, four: bool): int
    requires i + (if four then 4 else 2) <= |b|
  {
    if four then NumberAt(b, i) else (b[i] as int) * 0x100 + b[i + 1]
  }

  /** Type 1 for a set or 2 for a sequence, how many AS numbers, the numbers. */
  ghost predicate SpellsOne(b: seq<U8>, s: Segment, four: bool) {
    var n, w := |s.asns|, if four then 4 else 2;
    && 1 <= n <= 255 && |b| == 2 + w * n && b[0] == (if s.kind.AsSet? then 1 else 2) && b[1] == n
    && forall i :: 0 <= i < n ==> 0 <= w * i <= w * (n - 1) && s.asns[i] == AsnAt(b, 2 + w * i, four)
  }

  /** The octets of an AS_PATH, segment by segment. */
  ghost predicate Spells(b: seq<U8>, segments: seq<Segment>, four: bool) {
    if segments == [] then b == []
    else
      var end := 2 + (if four then 4 else 2) * |segments[0].asns|;
      end <= |b| && SpellsOne(b[..end], segments[0], four) && Spells(b[end..], segments[1..], four)
  }

  lemma NumberDecoded(b: seq<U8>)
    requires |b| == 4
    ensures From32(b) == NumberAt(b, 0)
  {}

  lemma {:induction false} AsnsDecoded(b: seq<U8>, count: nat, four: bool, i: nat)
    requires |b| == Span(count, four) && i < count
    ensures var w := if four then 4 else 2; w * i + w <= |b| && DecodeAsns(b, count, four)[i] == AsnAt(b, w * i, four)
    decreases count
  {
    var w := Width(four);
    if four { NumberDecoded(b[..4]); }
    if i > 0 {
      AsnsDecoded(b[w..], count - 1, four, i - 1);
      if four {
        assert b[w..][4 * (i - 1)..4 * (i - 1) + 4] == b[4 * i..4 * i + 4];
      }
    }
  }

  lemma {:induction false} AsnsDetermined(b: seq<U8>, count: nat, four: bool, asns: seq<U32>)
    requires |b| == Span(count, four) && |asns| == count
    ensures asns == DecodeAsns(b, count, four) <==>
              var w := if four then 4 else 2;
              forall i :: 0 <= i < count ==> 0 <= w * i <= w * (count - 1) && asns[i] == AsnAt(b, w * i, four)
  {
    var w := if four then 4 else 2;
    forall i | 0 <= i < count ensures w * i + w <= |b| && DecodeAsns(b, count, four)[i] == AsnAt(b, w * i, four) {
      AsnsDecoded(b, count, four, i);
    }
  }

  lemma SpelledOne(b: seq<U8>, s: Segment, four: bool)
    requires |b| >= 2 && 1 <= b[1] && |b| == 2 + Span(b[1], four) && b[0] in {1, 2}
    ensures SpellsOne(b, s, four) <==>
              s == Segment(if b[0] == 1 then AsSet else AsSequence, DecodeAsns(b[2..], b[1], four))
  {
    if |s.asns| == b[1] {
      AsnsDetermined(b[2..], b[1], four, s.asns);
      ShiftedAsns(b, b[1], four);
    }
  }

  lemma ShiftedAsns(b: seq<U8>, count: nat, four: bool)
    requires |b| == 2 + Span(count, four)
    ensures var w := if four then 4 else 2;
            forall i :: 0 <= i < count && 0 <= w * i <= w * (count - 1) ==>
              AsnAt(b, 2 + w * i, four) == AsnAt(b[2..], w * i, four)
  {}

  lemma {:induction false} FrontDecoded(b: seq<U8>, four: bool)
    requires |b| >= 2 && b[0] in {1, 2} && b[1] != 0 && 2 + Span(b[1], four) <= |b|
    ensures var end := 2 + Span(b[1], four);
            var r := DecodeSegments(b[end..], four);
            DecodeSegments(b, four) ==
              if r.Err? then r
              else Ok([Segment(if b[0] == 1 then AsSet else AsSequence, DecodeAsns(b[..end][2..], b[1], four))] + r.value)
  {
    var end := 2 + Span(b[1], four);
    assert b[..end][2..] == b[2..end];
  }

  lemma {:induction false} FrontSpells(b: seq<U8>, head: Segment, rest: seq<Segment>, four: bool)
    requires |b| >= 2 && b[1] != 0 && 2 + Span(b[1], four) <= |b|
    ensures var end := 2 + Span(b[1], four);
            Spells(b, [head] + rest, four) <==> SpellsOne(b[..end], head, four) && Spells(b[end..], rest, four)
  {
    assert ([head] + rest)[1..] == rest;
    var w := if four then 4 else 2;
    if Spells(b, [head] + rest, four) {
      assert |b[..2 + w * |head.asns|]| == 2 + w * |head.asns|;
      assert b[1] == |head.asns|;
    }
  }

  lemma {:induction false} FrontSpelled(b: seq<U8>, head: Segment, rest: seq<Segment>, four: bool)
    requires |b| >= 2 && b[0] in {1, 2} && b[1] != 0 && 2 + Span(b[1], four) <= |b|
    requires var more := b[2 + Span(b[1], four)..]; DecodeSegments(more, four) == Ok(rest) <==> Spells(more, rest, four)
    ensures DecodeSegments(b, four) == Ok([head] + rest) <==> Spells(b, [head] + rest, four)
  {
    FrontDecoded(b, four);
    FrontSpells(b, head, rest, four);
    SpelledOne(b[..2 + Span(b[1], four)], head, four);
    var r := DecodeSegments(b, four);
    if r == Ok([head] + rest) {
      assert r.value[0] == head && r.value[1..] == rest;
    }
  }

  /** A path is read exactly from the octets that spell it. */
  lemma {:induction false} DecodedIffSpelled(b: seq<U8>, segments: seq<Segment>, four: bool)
    ensures DecodeSegments(b, four) == Ok(segments) <==> Spells(b, segments, four)
    decreases |b|
  {
    if b != [] && segments != [] {
      if |b| >= 2 && b[0] in {1, 2} && b[1] != 0 && 2 + Span(b[1], four) <= |b| {
        DecodedIffSpelled(b[2 + Span(b[1], four)..], segments[1..], four);
        FrontSpelled(b, segments[0], segments[1..], four);
        assert segments == [segments[0]] + segments[1..];
      }
    }
  }

  // ---------------------------------------------------------- what is acceptable

  predicate Known(code: U8) {
    1 <= code <= 6 || code == 9 || code == 10 || 14 <= code <= 17
  }

  /** Whether the flags of an attribute are those of its code. */
  predicate RightFlags(x: RawAttr) {
    && (x.code in {1, 2, 3} ==> !Optional(x.flags))
    && (x.code in {9, 10} ==> Optional(x.flags) && !Transitive(x.flags))
    && (x.code in {14, 15, 17} ==> Optional(x.flags))
  }

  predicate RightLength(x: RawAttr) {
    var n := |x.value|;
    && (x.code == 1 ==> n == 1)
    && (x.code in {3, 4, 5, 9} ==> n == 4)
    && (x.code == 6 ==> n == 0)
    && (x.code == 10 ==> 0 < n <= 128 && n % 4 == 0)
    && (x.code == 14 ==> n >= 5 && x.value[3] <= n - 5)
    && (x.code == 15 ==> n >= 3)
    && (x.code == 16 ==> 0 < n && n % 8 == 0)
  }

  /** The subcode an attribute is refused with on its own account, flags before length before content. */
  ghost function Fault(x: RawAttr, four: bool): Option<U8> {
    if !Known(x.code) && !Optional(x.flags) then Some(2)
    else if !RightFlags(x) then Some(4)
    else if !RightLength(x) then Some(5)
    else if x.code == 1 && x.value[0] > 2 then Some(6)
    else if x.code == 14 && |x.value| - 5 - x.value[3] > 4096 then Some(10)
    else if x.code == 15 && |x.value| - 3 > 4096 then Some(10)
    else if x.code == 2 && !Spellable(x.value, four) then Some(11)
    else if x.code == 17 && !Spellable(x.value, true) then Some(11)
    else None
  }

  ghost predicate Spellable(b: seq<U8>, four: bool) {
    exists segments :: Spells(b, segments, four)
  }

  lemma {:induction false} PathFault(b: seq<U8>, four: bool)
    ensures if Spellable(b, four) then DecodePath(b, four).Ok? && Spells(b, DecodePath(b, four).value.segments, four)
            else DecodePath(b, four) == Err(11)
  {
    SegmentsFault(b, four);
    var r := DecodeSegments(b, four);
    if r.Ok? {
      DecodedIffSpelled(b, r.value, four);
    }
    if segments :| Spells(b, segments, four) {
      DecodedIffSpelled(b, segments, four);
    }
  }

  lemma {:induction false} SegmentsFault(b: seq<U8>, four: bool)
    ensures DecodeSegments(b, four).Err? ==> DecodeSegments(b, four).subcode == 11
    decreases |b|
  {
    if |b| >= 2 && 2 + Span(b[1], four) <= |b| {
      SegmentsFault(b[2 + Span(b[1], four)..], four);
    }
  }

  lemma FaultIff(p: Parsed, x: RawAttr, four: bool)
    ensures var r := ParseOne(p, x.flags, x.code, x.value, four);
            if Fault(x, four).Some? then r == Err(Fault(x, four).value) else r.Ok?
  {
    FlagMeanings(x.flags);
    if x.code == 2 { PathFault(x.value, four); }
    if x.code == 17 { PathFault(x.value, true); }
  }

  // ------------------------------------------------------------ what is read

  ghost predicate Listed(v: seq<U8>, xs: seq<Address>) {
    |v| == 4 * |xs| && forall i :: 0 <= i < |xs| ==> xs[i] == NumberAt(v, 4 * i)
  }

  ghost predicate Grouped(v: seq<U8>, xs: seq<seq<U8>>) {
    |v| == 8 * |xs| && forall i :: 0 <= i < |xs| ==> xs[i] == v[8 * i..8 * i + 8]
  }

  /** What was read holds what the attribute says. */
  ghost predicate Shows(p: Parsed, x: RawAttr, four: bool) {
    var v := x.value;
    && (x.code == 1 ==> |v| == 1 && v[0] <= 2 && p.origin == Some(if v[0] == 0 then Igp else if v[0] == 1 then Egp else Incomplete))
    && (x.code == 2 ==> p.asPath.Some? && Spells(v, p.asPath.value.segments, four))
    && (x.code == 17 ==> p.as4Path.Some? && Spells(v, p.as4Path.value.segments, true))
    && (x.code == 3 ==> |v| == 4 && p.nextHop.Some? && p.nextHop.value == NumberAt(v, 0))
    && (x.code == 4 ==> |v| == 4 && p.med.Some? && p.med.value == NumberAt(v, 0))
    && (x.code == 5 ==> |v| == 4 && p.localPref.Some? && p.localPref.value == NumberAt(v, 0))
    && (x.code == 6 ==> p.atomicAggregate)
    && (x.code == 9 ==> |v| == 4 && p.originatorId.Some? && p.originatorId.value == NumberAt(v, 0))
    && (x.code == 10 ==> Listed(v, p.clusterList))
    && (x.code == 14 ==> p.mpReach.Some? && Reaches(v, p.mpReach.value))
    && (x.code == 15 ==> p.mpUnreach.Some? && Unreaches(v, p.mpUnreach.value))
    && (x.code == 16 ==> Grouped(v, p.extCommunities))
  }

  /** Family, next hop with its length, a reserved octet, prefixes. */
  ghost predicate Reaches(v: seq<U8>, m: MpReach) {
    && |v| == 5 + |m.nextHop| + |m.nlri|
    && m.afi == (v[0] as int) * 0x100 + v[1] && m.safi == v[2] && |m.nextHop| == v[3]
    && m.nextHop == v[4..4 + |m.nextHop|] && m.nlri == v[5 + |m.nextHop|..]
  }

  ghost predicate Unreaches(v: seq<U8>, m: MpUnreach) {
    |v| >= 3 && m.afi == (v[0] as int) * 0x100 + v[1] && m.safi == v[2] && m.nlri == v[3..]
  }

  /** Nothing was read for this code. */
  ghost predicate Silent(p: Parsed, code: U8) {
    && (code == 1 ==> p.origin.None?)
    && (code == 2 ==> p.asPath.None?)
    && (code == 17 ==> p.as4Path.None?)
    && (code == 3 ==> p.nextHop.None?)
    && (code == 4 ==> p.med.None?)
    && (code == 5 ==> p.localPref.None?)
    && (code == 6 ==> !p.atomicAggregate)
    && (code == 9 ==> p.originatorId.None?)
    && (code == 10 ==> p.clusterList == [])
    && (code == 14 ==> p.mpReach.None?)
    && (code == 15 ==> p.mpUnreach.None?)
    && (code == 16 ==> p.extCommunities == [])
  }

  lemma {:induction false} ListDecoded(v: seq<U8>, n: nat)
    requires |v| == 4 * n
    ensures Listed(v, DecodeAsns(v, n, true))
  {
    forall i | 0 <= i < n ensures DecodeAsns(v, n, true)[i] == NumberAt(v, 4 * i) {
      AsnsDecoded(v, n, true, i);
    }
  }

  lemma {:induction false} GroupsDecoded(v: seq<U8>)
    requires |v| % 8 == 0
    ensures Grouped(v, ParseCommunities(v))
    decreases |v|
  {
    if v != [] {
      GroupsDecoded(v[8..]);
      var xs := ParseCommunities(v);
      forall i | 0 <= i < |xs| ensures xs[i] == v[8 * i..8 * i + 8] {
        if i > 0 {
          assert xs[i] == ParseCommunities(v[8..])[i - 1] == v[8..][8 * (i - 1)..8 * (i - 1) + 8];
        }
      }
    }
  }

  /** Only what belongs to the code differs. */
  ghost predicate OnlyFor(code: U8, p: Parsed, q: Parsed) {
    && (code != 1 ==> q.origin == p.origin) && (code != 2 ==> q.asPath == p.asPath) && (code != 17 ==> q.as4Path == p.as4Path)
    && (code != 3 ==> q.nextHop == p.nextHop) && (code != 4 ==> q.med == p.med) && (code != 5 ==> q.localPref == p.localPref)
    && (code != 6 ==> q.atomicAggregate == p.atomicAggregate) && (code != 9 ==> q.originatorId == p.originatorId)
    && (code != 10 ==> q.clusterList == p.clusterList) && (code != 14 ==> q.mpReach == p.mpReach)
    && (code != 15 ==> q.mpUnreach == p.mpUnreach) && (code != 16 ==> q.extCommunities == p.extCommunities)
  }

  lemma ReadFrame(p: Parsed, x: RawAttr, four: bool, q: Parsed)
    requires ParseOne(p, x.flags, x.code, x.value, four) == Ok(q)
    ensures OnlyFor(x.code, p, q)
  {}

  lemma FrameKeeps(p: Parsed, code: U8, q: Parsed, y: RawAttr, four: bool)
    requires OnlyFor(code, p, q) && y.code != code
    ensures Shows(p, y, four) ==> Shows(q, y, four)
    ensures Silent(p, y.code) ==> Silent(q, y.code)
  {}

  lemma PathShown(p: Parsed, x: RawAttr, four: bool, q: Parsed)
    requires ParseOne(p, x.flags, x.code, x.value, four) == Ok(q) && x.code in {2, 17}
    ensures Shows(q, x, four)
  {
    PathFault(x.value, four);
    PathFault(x.value, true);
  }

  lemma ListShown(p: Parsed, x: RawAttr, four: bool, q: Parsed)
    requires ParseOne(p, x.flags, x.code, x.value, four) == Ok(q) && Silent(p, x.code) && x.code in {10, 16}
    ensures Shows(q, x, four)
  {
    var v := x.value;
    if x.code == 10 {
      ListDecoded(v, |v| / 4);
      assert [] + DecodeAsns(v, |v| / 4, true) == DecodeAsns(v, |v| / 4, true);
    } else {
      GroupsDecoded(v);
      assert [] + ParseCommunities(v) == ParseCommunities(v);
    }
  }

  lemma FamilyShown(p: Parsed, x: RawAttr, four: bool, q: Parsed)
    requires ParseOne(p, x.flags, x.code, x.value, four) == Ok(q) && x.code in {14, 15}
    ensures Shows(q, x, four)
  {}

  lemma NumberShown(p: Parsed, x: RawAttr, four: bool, q: Parsed)
    requires ParseOne(p, x.flags, x.code, x.value, four) == Ok(q) && x.code !in {2, 10, 14, 15, 16, 17}
    ensures Shows(q, x, four)
  {
    if |x.value| == 4 {
      NumberDecoded(x.value);
    }
  }

  /** Reading an attribute adds what it says and nothing else. */
  lemma ReadShows(p: Parsed, x: RawAttr, four: bool, q: Parsed)
    requires ParseOne(p, x.flags, x.code, x.value, four) == Ok(q) && Silent(p, x.code)
    ensures Shows(q, x, four) && OnlyFor(x.code, p, q)
  {
    ReadFrame(p, x, four, q);
    if x.code in {2, 17} {
      PathShown(p, x, four, q);
    } else if x.code in {10, 16} {
      ListShown(p, x, four, q);
    } else if x.code in {14, 15} {
      FamilyShown(p, x, four, q);
    } else {
      NumberShown(p, x, four, q);
    }
  }

  // ------------------------------------------------------------ whole blocks

  ghost function Codes(xs: seq<RawAttr>): set<U8> {
    set i | 0 <= i < |xs| :: xs[i].code
  }

  lemma CodesSnoc(xs: seq<RawAttr>, x: RawAttr)
    ensures Codes(xs + [x]) == Codes(xs) + {x.code}
  {
    forall c | c in Codes(xs + [x]) ensures c in Codes(xs) + {x.code} {
      var i :| 0 <= i < |xs + [x]| && (xs + [x])[i].code == c;
      assert i < |xs| ==> xs[i].code == c;
    }
    forall c | c in Codes(xs) + {x.code} ensures c in Codes(xs + [x]) {
      if c == x.code {
        assert (xs + [x])[|xs|].code == c;
      } else {
        var i :| 0 <= i < |xs| && xs[i].code == c;
        assert (xs + [x])[i].code == c;
      }
    }
  }

  /** Nothing is repeated, and nothing is refused on its own account. */
  ghost predicate Sound(xs: seq<RawAttr>, four: bool) {
    && (forall i, j :: 0 <= i < j < |xs| ==> xs[i].code != xs[j].code)
    && (forall i :: 0 <= i < |xs| ==> Fault(xs[i], four).None?)
  }

  /** What was read is what the attributes say, and nothing where there is none. */
  ghost predicate Records(p: Parsed, xs: seq<RawAttr>, four: bool) {
    && (forall i :: 0 <= i < |xs| ==> Shows(p, xs[i], four))
    && (forall c: U8 :: c !in Codes(xs) ==> Silent(p, c))
  }

  lemma RecordsThen(p: Parsed, xs: seq<RawAttr>, x: RawAttr, four: bool, q: Parsed)
    requires Records(p, xs, four) && x.code !in Codes(xs) && ParseOne(p, x.flags, x.code, x.value, four) == Ok(q)
    ensures Records(q, xs + [x], four)
  {
    ReadShows(p, x, four, q);
    CodesSnoc(xs, x);
    forall i | 0 <= i < |xs + [x]| ensures Shows(q, (xs + [x])[i], four) {
      if i < |xs| {
        assert xs[i].code in Codes(xs);
        FrameKeeps(p, x.code, q, xs[i], four);
      }
    }
    forall c: U8 | c !in Codes(xs + [x]) ensures Silent(q, c) {
      FrameKeeps(p, x.code, q, RawAttr(0, c, []), four);
    }
  }

  /** One whole attribute at the front of a block. */
  lemma FrontRead(x: RawAttr, rest: seq<U8>, four: bool, p: Parsed, seen: set<U8>)
    requires Countable(x)
    ensures ParseFrom(Wire(x) + rest, four, p, seen) ==
              if x.code in seen then Err(1)
              else var q := ParseOne(p, x.flags, x.code, x.value, four);
                   if q.Err? then Err(q.subcode) else ParseFrom(rest, four, q.value, seen + {x.code})
  {
    FlagMeanings(x.flags);
    var data := Wire(x) + rest;
    var hdr := if LongLength(x.flags) then 4 else 3;
    assert data[0] == x.flags && data[1] == x.code;
    assert LongLength(x.flags) ==> data[2..4] == LengthField(x);
    assert HeaderOf(data) == Ok((hdr, |x.value|));
    assert data[hdr..hdr + |x.value|] == x.value && data[hdr + |x.value|..] == rest;
  }

  lemma BrokenRefused(b: seq<U8>, four: bool, p: Parsed, seen: set<U8>)
    requires Broken(b)
    ensures ParseFrom(b, four, p, seen) == Err(if |b| == 1 then 1 else 5)
  {
    if |b| > 1 {
      FlagMeanings(b[0]);
    }
  }

  lemma WiresFront(xs: seq<RawAttr>, tail: seq<U8>)
    requires AllCountable(xs) && xs != []
    ensures Wires(xs) + tail == Wire(xs[0]) + (Wires(xs[1..]) + tail)
  {}

  lemma NotBefore(done: seq<RawAttr>, xs: seq<RawAttr>, four: bool)
    requires Sound(done + xs, four) && xs != []
    ensures xs[0].code !in Codes(done)
  {
    forall i | 0 <= i < |done| ensures done[i].code != xs[0].code {
      assert (done + xs)[i] == done[i] && (done + xs)[|done|] == xs[0];
    }
  }

  /** The attributes of a sound list are read one after the other. */
  lemma {:induction false} SoundRead(done: seq<RawAttr>, xs: seq<RawAttr>, tail: seq<U8>, four: bool, p: Parsed) returns (q: Parsed)
    requires AllCountable(xs) && Sound(done + xs, four) && Records(p, done, four)
    ensures Records(q, done + xs, four)
    ensures ParseFrom(Wires(xs) + tail, four, p, Codes(done)) == ParseFrom(tail, four, q, Codes(done + xs))
    decreases |xs|
  {
    if xs == [] {
      q := p;
      assert done + xs == done && Wires(xs) + tail == tail;
    } else {
      var x := xs[0];
      assert done + [x] + xs[1..] == done + xs && (done + xs)[|done|] == x;
      NotBefore(done, xs, four);
      FaultIff(p, x, four);
      var q1 := ParseOne(p, x.flags, x.code, x.value, four).value;
      RecordsThen(p, done, x, four, q1);
      CodesSnoc(done, x);
      WiresFront(xs, tail);
      FrontRead(x, Wires(xs[1..]) + tail, four, p, Codes(done));
      q := SoundRead(done + [x], xs[1..], tail, four, q1);
    }
  }

  lemma ReadFromStart(xs: seq<RawAttr>, tail: seq<U8>, four: bool) returns (q: Parsed)
    requires AllCountable(xs) && Sound(xs, four)
    ensures Records(q, xs, four)
    ensures ParseFrom(Wires(xs) + tail, four, NOTHING, {}) == ParseFrom(tail, four, q, Codes(xs))
  {
    assert [] + xs == xs && Codes([]) == {};
    q := SoundRead([], xs, tail, four, NOTHING);
  }

  /** A sound list of attributes, whoever wrote it and in whatever order, is accepted and read as it stands. */
  lemma SoundBlockIsRead(xs: seq<RawAttr>, four: bool)
    requires AllCountable(xs) && Sound(xs, four)
    ensures var r := ParseFrom(Wires(xs), four, NOTHING, {}); r.Ok? && Records(r.value, xs, four)
  {
    assert Wires(xs) + [] == Wires(xs);
    var q := ReadFromStart(xs, [], four);
  }

  /** The first attribute that is repeated or faulty decides, whatever follows it. */
  lemma FirstFaultDecides(xs: seq<RawAttr>, x: RawAttr, rest: seq<U8>, four: bool)
    requires AllCountable(xs) && Sound(xs, four) && Countable(x)
    requires x.code in Codes(xs) || Fault(x, four).Some?
    ensures ParseFrom(Wires(xs) + (Wire(x) + rest), four, NOTHING, {}) ==
              Err(if x.code in Codes(xs) then 1 else Fault(x, four).value)
  {
    var q := ReadFromStart(xs, Wire(x) + rest, four);
    FrontRead(x, rest, four, q, Codes(xs));
    FaultIff(q, x, four);
  }

  /** A block that ends inside an attribute is refused, if nothing before is. */
  lemma BrokenEndIsRefused(xs: seq<RawAttr>, tail: seq<U8>, four: bool)
    requires AllCountable(xs) && Sound(xs, four) && Broken(tail)
    ensures ParseFrom(Wires(xs) + tail, four, NOTHING, {}) == Err(if |tail| == 1 then 1 else 5)
  {
    var q := ReadFromStart(xs, tail, four);
    BrokenRefused(tail, four, q, Codes(xs));
  }

  /** Every string of octets is a list of whole attributes and an end that is empty or broken. */
  lemma {:induction false} EveryBlock(b: seq<U8>) returns (xs: seq<RawAttr>, tail: seq<U8>)
    ensures AllCountable(xs) && (tail == [] || Broken(tail)) && b == Wires(xs) + tail
    decreases |b|
  {
    if b == [] || Broken(b) {
      xs, tail := [], b;
    } else {
      var long := LongLength(b[0]);
      var hdr := if long then 4 else 3;
      var len := if long then (b[2] as int) * 0x100 + b[3] else b[2];
      var x := RawAttr(b[0], b[1], b[hdr..hdr + len]);
      assert b == Wire(x) + b[hdr + len..];
      var ys, end := EveryBlock(b[hdr + len..]);
      xs, tail := [x] + ys, end;
      assert xs[1..] == ys;
      WiresFront(xs, tail);
    }
  }

  lemma {:induction false} FirstUnsound(xs: seq<RawAttr>, four: bool) returns (n: nat)
    requires !Sound(xs, four)
    ensures n < |xs| && Sound(xs[..n], four) && (xs[n].code in Codes(xs[..n]) || Fault(xs[n], four).Some?)
    decreases |xs|
  {
    var m := |xs| - 1;
    if !Sound(xs[..m], four) {
      n := FirstUnsound(xs[..m], four);
      assert xs[..m][..n] == xs[..n];
    } else {
      n := m;
      if Fault(xs[m], four).None? {
        var i, j :| 0 <= i < j < |xs| && xs[i].code == xs[j].code;
        assert xs[..m][i].code == xs[m].code;
      }
    }
  }

  lemma {:induction false} WiresCut(xs: seq<RawAttr>, before: seq<RawAttr>, x: RawAttr, after: seq<RawAttr>, tail: seq<U8>)
    requires xs == before + [x] + after && AllCountable(xs) && AllCountable(before) && AllCountable(after) && Countable(x)
    ensures Wires(xs) + tail == Wires(before) + (Wire(x) + (Wires(after) + tail))
    decreases |before|
  {
    WiresFront(xs, tail);
    if before == [] {
      assert xs[1..] == after;
      NoneBefore(before, Wire(x) + (Wires(after) + tail));
    } else {
      assert xs[1..] == before[1..] + [x] + after;
      WiresCut(xs[1..], before[1..], x, after, tail);
      WiresFront(before, Wire(x) + (Wires(after) + tail));
    }
  }

  lemma Cut<T>(xs: seq<T>, n: nat)
    requires n < |xs|
    ensures xs == xs[..n] + [xs[n]] + xs[n + 1..]
  {}

  lemma WiresSplit(xs: seq<RawAttr>, n: nat, tail: seq<U8>)
    requires AllCountable(xs) && n < |xs|
    ensures AllCountable(xs[..n]) && AllCountable(xs[n + 1..])
    ensures Wires(xs) + tail == Wires(xs[..n]) + (Wire(xs[n]) + (Wires(xs[n + 1..]) + tail))
  {
    Cut(xs, n);
    WiresCut(xs, xs[..n], xs[n], xs[n + 1..], tail);
  }

  ghost predicate Spelling(b: seq<U8>, xs: seq<RawAttr>) {
    AllCountable(xs) && Wires(xs) == b
  }

  /** A block is accepted exactly when it spells a sound list of attributes. */
  lemma AcceptedIff(b: seq<U8>, four: bool)
    ensures ParseFrom(b, four, NOTHING, {}).Ok? <==> exists xs :: Spelling(b, xs) && Sound(xs, four)
  {
    if xs :| Spelling(b, xs) && Sound(xs, four) {
      SoundBlockIsRead(xs, four);
    }
    var xs, tail := EveryBlock(b);
    if !Sound(xs, four) {
      var n := FirstUnsound(xs, four);
      WiresSplit(xs, n, tail);
      FirstFaultDecides(xs[..n], xs[n], Wires(xs[n + 1..]) + tail, four);
    } else if tail != [] {
      BrokenEndIsRefused(xs, tail, four);
    } else {
      assert Wires(xs) + tail == Wires(xs);
      assert Spelling(b, xs);
    }
  }

  // -------------------------------------------------------- unknown attributes

  /** What was seen of a code that does not come again makes no difference. */
  lemma {:induction false} SeenForNothing(xs: seq<RawAttr>, tail: seq<U8>, four: bool, p: Parsed, seen: set<U8>, code: U8)
    requires AllCountable(xs) && (tail == [] || Broken(tail)) && code !in Codes(xs)
    ensures ParseFrom(Wires(xs) + tail, four, p, seen + {code}) == ParseFrom(Wires(xs) + tail, four, p, seen)
    decreases |xs|
  {
    if xs == [] {
      assert Wires(xs) + tail == tail;
      if tail != [] {
        BrokenRefused(tail, four, p, seen);
        BrokenRefused(tail, four, p, seen + {code});
      }
    } else {
      var x := xs[0];
      WiresFront(xs, tail);
      FrontRead(x, Wires(xs[1..]) + tail, four, p, seen);
      FrontRead(x, Wires(xs[1..]) + tail, four, p, seen + {code});
      assert x.code in Codes(xs);
      var q := ParseOne(p, x.flags, x.code, x.value, four);
      if q.Ok? && x.code !in seen {
        CodesTail(xs);
        SeenForNothing(xs[1..], tail, four, q.value, seen + {x.code}, code);
        assert seen + {code} + {x.code} == seen + {x.code} + {code};
      }
    }
  }

  lemma CodesTail(xs: seq<RawAttr>)
    requires xs != []
    ensures Codes(xs) == {xs[0].code} + Codes(xs[1..])
  {
    forall c | c in Codes(xs) ensures c in {xs[0].code} + Codes(xs[1..]) {
      var i :| 0 <= i < |xs| && xs[i].code == c;
      assert i > 0 ==> xs[1..][i - 1].code == c;
    }
    forall c | c in Codes(xs[1..]) ensures c in Codes(xs) {
      var i :| 0 <= i < |xs[1..]| && xs[1..][i].code == c;
      assert xs[i + 1].code == c;
    }
  }

  lemma UnknownReads(x: RawAttr, four: bool, p: Parsed)
    requires !Known(x.code) && Optional(x.flags)
    ensures ParseOne(p, x.flags, x.code, x.value, four) == Ok(p)
  {
    FlagMeanings(x.flags);
  }

  lemma SkippedHere(x: RawAttr, after: seq<RawAttr>, tail: seq<U8>, rest: seq<U8>, four: bool, p: Parsed, seen: set<U8>)
    requires AllCountable(after) && (tail == [] || Broken(tail)) && Countable(x) && rest == Wires(after) + tail
    requires !Known(x.code) && Optional(x.flags) && x.code !in Codes(after) && x.code !in seen
    ensures ParseFrom(Wire(x) + rest, four, p, seen) == ParseFrom(rest, four, p, seen)
  {
    FrontRead(x, rest, four, p, seen);
    UnknownReads(x, four, p);
    SeenForNothing(after, tail, four, p, seen, x.code);
  }

  /** What follows an attribute matters only if the attribute is accepted, and then only as read after it. */
  lemma SameFront(y: RawAttr, long: seq<U8>, short: seq<U8>, four: bool, p: Parsed, seen: set<U8>)
    requires Countable(y)
    requires var q := ParseOne(p, y.flags, y.code, y.value, four);
             q.Ok? ==> ParseFrom(long, four, q.value, seen + {y.code}) == ParseFrom(short, four, q.value, seen + {y.code})
    ensures ParseFrom(Wire(y) + long, four, p, seen) == ParseFrom(Wire(y) + short, four, p, seen)
  {
    FrontRead(y, long, four, p, seen);
    FrontRead(y, short, four, p, seen);
  }

  lemma {:induction false} SkippedFrom(before: seq<RawAttr>, x: RawAttr, after: seq<RawAttr>, tail: seq<U8>, four: bool,
                                       p: Parsed, seen: set<U8>)
    requires AllCountable(before) && AllCountable(after) && (tail == [] || Broken(tail)) && Countable(x)
    requires !Known(x.code) && Optional(x.flags) && x.code !in Codes(before) && x.code !in Codes(after) && x.code !in seen
    ensures ParseFrom(Wires(before) + (Wire(x) + (Wires(after) + tail)), four, p, seen) ==
            ParseFrom(Wires(before) + (Wires(after) + tail), four, p, seen)
    decreases |before|
  {
    var short := Wires(after) + tail;
    var long := Wire(x) + short;
    if before == [] {
      SkippedHere(x, after, tail, short, four, p, seen);
      NoneBefore(before, long);
      NoneBefore(before, short);
    } else {
      var y := before[0];
      WiresFront(before, long);
      WiresFront(before, short);
      CodesTail(before);
      var q := ParseOne(p, y.flags, y.code, y.value, four);
      if q.Ok? {
        SkippedFrom(before[1..], x, after, tail, four, q.value, seen + {y.code});
      }
      SameFront(y, Wires(before[1..]) + long, Wires(before[1..]) + short, four, p, seen);
    }
  }

  lemma NoneBefore(xs: seq<RawAttr>, rest: seq<U8>)
    requires xs == []
    ensures Wires(xs) + rest == rest
  {}

  /**
   An attribute of a code nobody here knows, marked optional and given once, changes nothing:
   any block, accepted or not, is parsed as if it were not there.
   */
  lemma UnknownOptionalIsIgnored(before: seq<RawAttr>, x: RawAttr, after: seq<RawAttr>, tail: seq<U8>, four: bool)
    requires AllCountable(before) && AllCountable(after) && (tail == [] || Broken(tail)) && Countable(x)
    requires !Known(x.code) && Optional(x.flags) && x.code !in Codes(before) + Codes(after)
    ensures ParseFrom(Wires(before) + (Wire(x) + (Wires(after) + tail)), four, NOTHING, {}) ==
            ParseFrom(Wires(before) + (Wires(after) + tail), four, NOTHING, {})
  {
    SkippedFrom(before, x, after, tail, four, NOTHING, {});
  }

  /** Not marked optional, it is refused as an unrecognised well-known attribute, if nothing before it is refused. */
  lemma UnknownWellKnownIsRefused(before: seq<RawAttr>, x: RawAttr, rest: seq<U8>, four: bool)
    requires AllCountable(before) && Sound(before, four) && Countable(x)
    requires !Known(x.code) && !Optional(x.flags) && x.code !in Codes(before)
    ensures ParseFrom(Wires(before) + (Wire(x) + rest), four, NOTHING, {}) == Err(2)
  {
    FirstFaultDecides(before, x, rest, four);
  }

  // ----------------------------------------------------- required attributes

  /** The attributes handed on are those read, with AS4_PATH folded in; what a withdrawal need not carry is blank. */
  ghost predicate Completes(a: PathAttributes, p: Parsed) {
    && (if p.origin.Some? then p.origin == Some(a.origin) else a.origin.Igp?)
    && (if p.nextHop.Some? then p.nextHop == Some(a.nextHop) else a.nextHop == 0)
    && (var path := if p.asPath.Some? then p.asPath.value else AsPath([]);
        a.asPath == if p.as4Path.Some? then MergeAs4(path, p.as4Path.value) else path)
    && a.med == p.med && a.localPref == p.localPref && a.atomicAggregate == p.atomicAggregate
    && a.extCommunities == p.extCommunities && a.mpReach == p.mpReach && a.mpUnreach == p.mpUnreach
    && a.originatorId == p.originatorId && a.clusterList == p.clusterList
  }

  /** Whatever announces must carry ORIGIN and AS_PATH, and with IPv4 prefixes NEXT_HOP. */
  ghost predicate Lacking(codes: set<U8>, nlri: seq<Prefix>) {
    || ((nlri != [] || 14 in codes) && (1 !in codes || 2 !in codes))
    || (nlri != [] && 3 !in codes)
  }

  lemma RecordedWhere(p: Parsed, xs: seq<RawAttr>, four: bool)
    requires Records(p, xs, four)
    ensures (p.origin.Some? <==> 1 in Codes(xs)) && (p.asPath.Some? <==> 2 in Codes(xs)) && (p.nextHop.Some? <==> 3 in Codes(xs))
    ensures (p.mpReach.Some? <==> 14 in Codes(xs)) && (p.mpUnreach.Some? <==> 15 in Codes(xs))
  {
    forall c: U8 | c in Codes(xs) ensures exists i :: 0 <= i < |xs| && xs[i].code == c && Shows(p, xs[i], four) {
      var i :| 0 <= i < |xs| && xs[i].code == c;
    }
    assert forall c: U8 :: c !in Codes(xs) ==> Silent(p, c);
  }

  lemma RestRead(withdrawn: seq<Prefix>, block: seq<U8>, p: Parsed, tail: seq<U8>, nlri: seq<Prefix>, four: bool)
    requires ParseFrom(block, four, NOTHING, {}) == Ok(p) && DecodePrefixes(tail) == Ok(nlri)
    ensures var r := ParseRest(withdrawn, block, tail, four);
            var announces := nlri != [] || p.mpReach.Some?;
            if (announces && (p.origin.None? || p.asPath.None?)) || (nlri != [] && p.nextHop.None?) then r == Err(3)
            else
              && r.Ok? && r.value.withdrawn == withdrawn && r.value.nlri == nlri
              && (r.value.attributes.Some? <==> nlri != [] || p.mpReach.Some? || p.mpUnreach.Some?)
              && (r.value.attributes.Some? ==> Completes(r.value.attributes.value, p))
  {}

  /**
   What becomes of an UPDATE whose attributes are sound: it is refused exactly when what it
   announces lacks a required attribute, and otherwise it is what was written.
   */
  lemma MissingIff(withdrawn: seq<Prefix>, xs: seq<RawAttr>, tail: seq<U8>, nlri: seq<Prefix>, four: bool)
    requires AllCountable(xs) && Sound(xs, four) && DecodePrefixes(tail) == Ok(nlri)
    ensures var r := ParseRest(withdrawn, Wires(xs), tail, four);
            if Lacking(Codes(xs), nlri) then r == Err(3)
            else
              && r.Ok? && r.value.withdrawn == withdrawn && r.value.nlri == nlri
              && (r.value.attributes.Some? <==> nlri != [] || 14 in Codes(xs) || 15 in Codes(xs))
              && (r.value.attributes.Some? ==> exists p :: Records(p, xs, four) && Completes(r.value.attributes.value, p))
  {
    SoundBlockIsRead(xs, four);
    var p := ParseFrom(Wires(xs), four, NOTHING, {}).value;
    RecordedWhere(p, xs, four);
    RestRead(withdrawn, Wires(xs), p, tail, nlri, four);
  }

  // -------------------------------------------------------- what this speaker writes

  /** The flags RFC 4271, 4456, 4760, 4360 and 6793 give an attribute: well-known, optional, or optional and transitive. */
  function StandardFlags(code: U8): U8 {
    if code in {1, 2, 3, 5, 6} then 0x40 else if code in {16, 17} then 0xC0 else 0x80
  }

  /** The attribute as it goes out: the extended-length bit is set exactly when the value needs it. */
  function Written(x: RawAttr): RawAttr
    requires x.flags + 0x10 < 0x100
  {
    if |x.value| > 0xFF then x.(flags := x.flags + 0x10) else x
  }

  lemma PushIsWire(x: RawAttr)
    requires x.Encodable()
    ensures Countable(Written(x)) && PushAttribute(x) == Wire(Written(x))
  {
    FlagBits(x);
  }

  function OneIf(present: bool, x: RawAttr): seq<RawAttr>
    requires x.flags + 0x10 < 0x100
  {
    if present then [Written(x)] else []
  }

  /** A block of standard attributes: each as written, with its standard flags, none twice. */
  ghost predicate Standard(xs: seq<RawAttr>) {
    && AllCountable(xs)
    && (forall i :: 0 <= i < |xs| ==> xs[i].flags == StandardFlags(xs[i].code) + if |xs[i].value| > 0xFF then 0x10 else 0)
  }

  lemma StandardThen(present: bool, x: RawAttr, xs: seq<RawAttr>, rest: seq<U8>)
    requires present ==> x.Encodable() && x.flags == StandardFlags(x.code)
    requires x.flags + 0x10 < 0x100 && Standard(xs) && rest == Wires(xs)
    ensures Standard(OneIf(present, x) + xs) && PushIf(present, x) + rest == Wires(OneIf(present, x) + xs)
  {
    if present {
      PushIsWire(x);
      assert ([Written(x)] + xs)[1..] == xs;
    } else {
      assert [] + xs == xs && [] + rest == rest;
    }
  }

  /** The attributes the encoder pushes, in its order. */
  function TailList(a: PathAttributes): seq<RawAttr> {
    OneIf(a.originatorId.Some?, OriginatorAttr(a)) + (OneIf(a.clusterList != [], ClusterAttr(a)) + FamilyList(a))
  }

  function List(a: PathAttributes, hasNlri: bool): seq<RawAttr> {
    OneIf(true, OriginAttr(a)) + (OneIf(true, PathAttr(a)) + (OneIf(SendsAs4(a), As4Attr(a))
    + (OneIf(hasNlri, NextHopAttr(a)) + (OneIf(a.med.Some?, MedAttr(a)) + (OneIf(a.localPref.Some?, LocalPrefAttr(a))
    + (OneIf(a.atomicAggregate, AtomicAttr()) + TailList(a)))))))
  }

  function FamilyList(a: PathAttributes): seq<RawAttr> {
    OneIf(a.extCommunities != [], CommunityAttr(a)) + (OneIf(a.mpReach.Some?, ReachAttr(a)) + (OneIf(a.mpUnreach.Some?, UnreachAttr(a)) + []))
  }

  lemma FamiliesWritten(a: PathAttributes, hasNlri: bool)
    requires WellFormed(a, hasNlri) && Fits(a)
    ensures Standard(FamilyList(a)) && FromCommunities(a) == Wires(FamilyList(a))
  {
    StandardThen(a.mpUnreach.Some?, UnreachAttr(a), [], []);
    var from15 := OneIf(a.mpUnreach.Some?, UnreachAttr(a)) + [];
    StandardThen(a.mpReach.Some?, ReachAttr(a), from15, FromUnreach(a));
    StandardThen(a.extCommunities != [], CommunityAttr(a), OneIf(a.mpReach.Some?, ReachAttr(a)) + from15, FromReach(a));
  }

  lemma TailWritten(a: PathAttributes, hasNlri: bool)
    requires WellFormed(a, hasNlri) && Fits(a)
    ensures Standard(TailList(a)) && FromOriginator(a) == Wires(TailList(a))
  {
    FamiliesWritten(a, hasNlri);
    StandardThen(a.clusterList != [], ClusterAttr(a), FamilyList(a), FromCommunities(a));
    StandardThen(a.originatorId.Some?, OriginatorAttr(a), OneIf(a.clusterList != [], ClusterAttr(a)) + FamilyList(a), FromClusters(a));
  }

  lemma MiddleWritten(a: PathAttributes, hasNlri: bool, tail: seq<RawAttr>)
    requires Standard(tail) && FromOriginator(a) == Wires(tail)
    ensures var xs := OneIf(hasNlri, NextHopAttr(a)) + (OneIf(a.med.Some?, MedAttr(a)) + (OneIf(a.localPref.Some?, LocalPrefAttr(a))
                      + (OneIf(a.atomicAggregate, AtomicAttr()) + tail)));
            Standard(xs) && FromNextHop(a, hasNlri) == Wires(xs)
  {
    StandardThen(a.atomicAggregate, AtomicAttr(), tail, FromOriginator(a));
    var from6 := OneIf(a.atomicAggregate, AtomicAttr()) + tail;
    StandardThen(a.localPref.Some?, LocalPrefAttr(a), from6, FromAtomic(a));
    var from5 := OneIf(a.localPref.Some?, LocalPrefAttr(a)) + from6;
    StandardThen(a.med.Some?, MedAttr(a), from5, FromLocalPref(a));
    var from4 := OneIf(a.med.Some?, MedAttr(a)) + from5;
    StandardThen(hasNlri, NextHopAttr(a), from4, FromMed(a));
  }

  lemma ListWritten(a: PathAttributes, hasNlri: bool)
    requires WellFormed(a, hasNlri) && Fits(a) && !WithdrawOnly(a, hasNlri)
    ensures Standard(List(a, hasNlri)) && EncodeAttributes(a, hasNlri) == Wires(List(a, hasNlri))
  {
    TailWritten(a, hasNlri);
    MiddleWritten(a, hasNlri, TailList(a));
    var from3 := OneIf(hasNlri, NextHopAttr(a)) + (OneIf(a.med.Some?, MedAttr(a)) + (OneIf(a.localPref.Some?, LocalPrefAttr(a))
                 + (OneIf(a.atomicAggregate, AtomicAttr()) + TailList(a))));
    StandardThen(SendsAs4(a), As4Attr(a), from3, FromNextHop(a, hasNlri));
    var from17 := OneIf(SendsAs4(a), As4Attr(a)) + from3;
    StandardThen(true, PathAttr(a), from17, FromAs4(a, hasNlri));
    StandardThen(true, OriginAttr(a), OneIf(true, PathAttr(a)) + from17, PushAttribute(PathAttr(a)) + FromAs4(a, hasNlri));
  }

  /** What was read shows which attributes there were. */
  lemma RecordedIff(p: Parsed, xs: seq<RawAttr>, four: bool)
    requires Records(p, xs, four) && Sound(xs, four)
    ensures (p.med.Some? <==> 4 in Codes(xs)) && (p.localPref.Some? <==> 5 in Codes(xs)) && (p.atomicAggregate <==> 6 in Codes(xs))
    ensures (p.originatorId.Some? <==> 9 in Codes(xs)) && (p.clusterList != [] <==> 10 in Codes(xs))
    ensures (p.extCommunities != [] <==> 16 in Codes(xs)) && (p.as4Path.Some? <==> 17 in Codes(xs))
  {
    forall c: U8 | c in Codes(xs)
      ensures exists i :: 0 <= i < |xs| && xs[i].code == c && Shows(p, xs[i], four) && RightLength(xs[i])
    {
      var i :| 0 <= i < |xs| && xs[i].code == c;
      assert Fault(xs[i], four).None?;
    }
    assert forall c: U8 :: c !in Codes(xs) ==> Silent(p, c);
  }

  ghost predicate SomeAsnTooLarge(a: PathAttributes) {
    exists i :: 0 <= i < |a.asPath.Flatten()| && a.asPath.Flatten()[i] >= 0x1_0000
  }

  /** The attributes a set of them calls for, and no other; AS4_PATH on a two-octet session where an AS number does not fit. */
  ghost predicate AsCalledFor(a: PathAttributes, hasNlri: bool, codes: set<U8>) {
    && 1 in codes && 2 in codes && (3 in codes <==> hasNlri)
    && (4 in codes <==> a.med.Some?) && (5 in codes <==> a.localPref.Some?) && (6 in codes <==> a.atomicAggregate)
    && (9 in codes <==> a.originatorId.Some?) && (10 in codes <==> a.clusterList != [])
    && (14 in codes <==> a.mpReach.Some?) && (15 in codes <==> a.mpUnreach.Some?)
    && (16 in codes <==> a.extCommunities != []) && (17 in codes <==> !a.fourOctetAs && SomeAsnTooLarge(a))
  }

  /**
   What this speaker writes is a block anybody accepts: whole attributes, each with the flags
   its standard gives it and the extended-length bit where the value needs it, exactly those
   the set calls for and none twice.
   */
  lemma EncodedIsStandard(a: PathAttributes, hasNlri: bool)
    requires WellFormed(a, hasNlri) && Fits(a) && !WithdrawOnly(a, hasNlri)
    ensures exists xs ::
              && Spelling(EncodeAttributes(a, hasNlri), xs) && Standard(xs) && Sound(xs, a.fourOctetAs)
              && AsCalledFor(a, hasNlri, Codes(xs))
  {
    var xs := List(a, hasNlri);
    ListWritten(a, hasNlri);
    BlockParses(a, hasNlri);
    SpellingIsSound(EncodeAttributes(a, hasNlri), xs, a.fourOctetAs);
    assert Spelling(EncodeAttributes(a, hasNlri), xs);
    SoundBlockIsRead(xs, a.fourOctetAs);
    ListedAsCalled(a, hasNlri, xs);
  }

  lemma ListedAsCalled(a: PathAttributes, hasNlri: bool, xs: seq<RawAttr>)
    requires Records(Reading(a, hasNlri), xs, a.fourOctetAs) && Sound(xs, a.fourOctetAs)
    ensures AsCalledFor(a, hasNlri, Codes(xs))
  {
    RecordedIff(Reading(a, hasNlri), xs, a.fourOctetAs);
    RecordedWhere(Reading(a, hasNlri), xs, a.fourOctetAs);
  }

  lemma SpellingIsSound(b: seq<U8>, xs: seq<RawAttr>, four: bool)
    requires Spelling(b, xs) && ParseFrom(b, four, NOTHING, {}).Ok?
    ensures Sound(xs, four)
  {
    if !Sound(xs, four) {
      var n := FirstUnsound(xs, four);
      WiresSplit(xs, n, []);
      assert Wires(xs) + [] == Wires(xs);
      FirstFaultDecides(xs[..n], xs[n], Wires(xs[n + 1..]) + [], four);
    }
  }
}
