/**
 UPDATE messages on the wire: the path attribute block, the multiprotocol
 attributes, the message body and the 19-octet header.
 */
module UpdateCodec {
  import opened BgpTypes
  import opened AsPathCodec
  import opened PrefixCodec

  const HEADER_LEN: nat := 19
  const MAX_MESSAGE_LEN: nat := 4096
  const MSG_UPDATE: U8 := 2
  const MAX_MP_NLRI_BYTES: nat := 4096

  const OPTIONAL: U8 := 0x80
  const TRANSITIVE: U8 := 0x40
  const EXTENDED: U8 := 0x10

  const ORIGIN: U8 := 1
  const AS_PATH: U8 := 2
  const NEXT_HOP: U8 := 3
  const MED: U8 := 4
  const LOCAL_PREF: U8 := 5
  const ATOMIC_AGGREGATE: U8 := 6
  const ORIGINATOR_ID: U8 := 9
  const CLUSTER_LIST: U8 := 10
  const MP_REACH: U8 := 14
  const MP_UNREACH: U8 := 15
  const EXT_COMMUNITIES: U8 := 16
  const AS4_PATH: U8 := 17

  const SUB_MALFORMED_LIST: U8 := 1
  const SUB_UNRECOGNIZED: U8 := 2
  const SUB_MISSING: U8 := 3
  const SUB_FLAGS: U8 := 4
  const SUB_LENGTH: U8 := 5
  const SUB_INVALID_ORIGIN: U8 := 6

  predicate HasBit(flags: U8, bit: nat)
    requires bit > 0
  {
    (flags / bit) % 2 == 1
  }

  // ------------------------------------------------------ one path attribute

  datatype RawAttr = RawAttr(flags: U8, code: U8, value: seq<U8>) {
    /** One of the three flag octets the encoder uses, and a value a length field can count. */
    ghost predicate Encodable() {
      (flags == OPTIONAL || flags == TRANSITIVE || flags == 0xC0) && |value| < 0x1_0000
    }
  }

  /** One- or two-octet length, as the value needs. */
  function PushAttribute(a: RawAttr): seq<U8> {
    if |a.value| > 0xFF then
      [if HasBit(a.flags, EXTENDED) then a.flags else a.flags + EXTENDED, a.code]
      + Be16(|a.value| % 0x1_0000) + a.value
    else
      [a.flags, a.code, |a.value|] + a.value
  }

  function PushIf(present: bool, a: RawAttr): seq<U8> {
    if present then PushAttribute(a) else []
  }

  // ------------------------------------------------------- multiprotocol values

  function EncodeReach(m: MpReach): seq<U8> {
    Be16(m.afi) + [m.safi, |m.nextHop| % 0x100] + m.nextHop + [0] + m.nlri
  }

  function ParseReach(v: seq<U8>): Result<MpReach> {
    if |v| < 5 then Err(SUB_LENGTH)
    else
      var end := 4 + v[3] as int;
      if end >= |v| then Err(SUB_LENGTH)
      else if |v| - (end + 1) > MAX_MP_NLRI_BYTES then Err(SUB_INVALID_NETWORK_FIELD)
      else Ok(MpReach(From16(v[..2]), v[2], v[4..end], v[end + 1..]))
  }

  function EncodeUnreach(m: MpUnreach): seq<U8> {
    Be16(m.afi) + [m.safi] + m.nlri
  }

  function ParseUnreach(v: seq<U8>): Result<MpUnreach> {
    if |v| < 3 then Err(SUB_LENGTH)
    else if |v| - 3 > MAX_MP_NLRI_BYTES then Err(SUB_INVALID_NETWORK_FIELD)
    else Ok(MpUnreach(From16(v[..2]), v[2], v[3..]))
  }

  lemma ReachRoundTrip(m: MpReach)
    requires |m.nextHop| <= 0xFF && |m.nlri| <= MAX_MP_NLRI_BYTES
    ensures ParseReach(EncodeReach(m)) == Ok(m)
  {
    var v := EncodeReach(m);
    var end := 4 + |m.nextHop|;
    assert v[..2] == Be16(m.afi) && v[2] == m.safi && v[3] == |m.nextHop|;
    assert v[4..end] == m.nextHop && v[end + 1..] == m.nlri;
    Be16RoundTrip(m.afi);
  }

  lemma UnreachRoundTrip(m: MpUnreach)
    requires |m.nlri| <= MAX_MP_NLRI_BYTES
    ensures ParseUnreach(EncodeUnreach(m)) == Ok(m)
  {
    var v := EncodeUnreach(m);
    assert v[..2] == Be16(m.afi) && v[2] == m.safi && v[3..] == m.nlri;
    Be16RoundTrip(m.afi);
  }

  // -------------------------------------------------------------- communities

  function EncodeCommunities(cs: seq<seq<U8>>): seq<U8> {
    if cs == [] then [] else cs[0] + EncodeCommunities(cs[1..])
  }

  function ParseCommunities(v: seq<U8>): seq<seq<U8>>
    decreases |v|
  {
    if |v| < 8 then [] else [v[..8]] + ParseCommunities(v[8..])
  }

  predicate EightOctets(cs: seq<seq<U8>>) {
    forall i :: 0 <= i < |cs| ==> |cs[i]| == 8
  }

  lemma {:induction false} CommunitiesRoundTrip(cs: seq<seq<U8>>)
    requires EightOctets(cs)
    ensures |EncodeCommunities(cs)| == 8 * |cs| && ParseCommunities(EncodeCommunities(cs)) == cs
    decreases |cs|
  {
    if cs != [] {
      CommunitiesRoundTrip(cs[1..]);
      var v := EncodeCommunities(cs);
      assert v[..8] == cs[0] && v[8..] == EncodeCommunities(cs[1..]);
      assert cs == [cs[0]] + cs[1..];
    }
  }

  // ------------------------------------------------------------ the whole block

  /** True when the attributes describe nothing but a multiprotocol withdrawal. */
  predicate WithdrawOnly(a: PathAttributes, hasNlri: bool) {
    a.mpUnreach.Some? && a.mpReach.None? && !hasNlri
  }

  function OriginAttr(a: PathAttributes): RawAttr { RawAttr(TRANSITIVE, ORIGIN, [a.origin.Rank()]) }

  function PathAttr(a: PathAttributes): RawAttr { RawAttr(TRANSITIVE, AS_PATH, EncodePath(a.asPath, a.fourOctetAs)) }

  function As4Attr(a: PathAttributes): RawAttr { RawAttr(0xC0, AS4_PATH, EncodePath(a.asPath, true)) }

  function NextHopAttr(a: PathAttributes): RawAttr { RawAttr(TRANSITIVE, NEXT_HOP, Be32(a.nextHop)) }

  function MedAttr(a: PathAttributes): RawAttr { RawAttr(OPTIONAL, MED, Be32(a.med.GetOr(0))) }

  function LocalPrefAttr(a: PathAttributes): RawAttr { RawAttr(TRANSITIVE, LOCAL_PREF, Be32(a.localPref.GetOr(0))) }

  function AtomicAttr(): RawAttr { RawAttr(TRANSITIVE, ATOMIC_AGGREGATE, []) }

  function OriginatorAttr(a: PathAttributes): RawAttr { RawAttr(OPTIONAL, ORIGINATOR_ID, Be32(a.originatorId.GetOr(0))) }

  function ClusterAttr(a: PathAttributes): RawAttr { RawAttr(OPTIONAL, CLUSTER_LIST, EncodeAsns(a.clusterList, true)) }

  function CommunityAttr(a: PathAttributes): RawAttr { RawAttr(0xC0, EXT_COMMUNITIES, EncodeCommunities(a.extCommunities)) }

  function ReachAttr(a: PathAttributes): RawAttr {
    RawAttr(OPTIONAL, MP_REACH, if a.mpReach.Some? then EncodeReach(a.mpReach.value) else [])
  }

  function UnreachAttr(a: PathAttributes): RawAttr {
    RawAttr(OPTIONAL, MP_UNREACH, if a.mpUnreach.Some? then EncodeUnreach(a.mpUnreach.value) else [])
  }

  /** AS4_PATH is sent only on a two-octet session that needs it. */
  predicate SendsAs4(a: PathAttributes) {
    !a.fourOctetAs && NeedsFourOctets(a.asPath)
  }

  function FromUnreach(a: PathAttributes): seq<U8> {
    PushIf(a.mpUnreach.Some?, UnreachAttr(a)) + []
  }

  function FromReach(a: PathAttributes): seq<U8> {
    PushIf(a.mpReach.Some?, ReachAttr(a)) + FromUnreach(a)
  }

  function FromCommunities(a: PathAttributes): seq<U8> {
    PushIf(a.extCommunities != [], CommunityAttr(a)) + FromReach(a)
  }

  function FromClusters(a: PathAttributes): seq<U8> {
    PushIf(a.clusterList != [], ClusterAttr(a)) + FromCommunities(a)
  }

  function FromOriginator(a: PathAttributes): seq<U8> {
    PushIf(a.originatorId.Some?, OriginatorAttr(a)) + FromClusters(a)
  }

  function FromAtomic(a: PathAttributes): seq<U8> {
    PushIf(a.atomicAggregate, AtomicAttr()) + FromOriginator(a)
  }

  function FromLocalPref(a: PathAttributes): seq<U8> {
    PushIf(a.localPref.Some?, LocalPrefAttr(a)) + FromAtomic(a)
  }

  function FromMed(a: PathAttributes): seq<U8> {
    PushIf(a.med.Some?, MedAttr(a)) + FromLocalPref(a)
  }

  function FromNextHop(a: PathAttributes, hasNlri: bool): seq<U8> {
    PushIf(hasNlri, NextHopAttr(a)) + FromMed(a)
  }

  function FromAs4(a: PathAttributes, hasNlri: bool): seq<U8> {
    PushIf(SendsAs4(a), As4Attr(a)) + FromNextHop(a, hasNlri)
  }

  /** The attribute block, in the order the encoder pushes it. */
  function EncodeAttributes(a: PathAttributes, hasNlri: bool): seq<U8> {
    if WithdrawOnly(a, hasNlri) then PushAttribute(UnreachAttr(a))
    else PushAttribute(OriginAttr(a)) + (PushAttribute(PathAttr(a)) + FromAs4(a, hasNlri))
  }

  // ------------------------------------------------------------------- parsing

  datatype Parsed = Parsed(
    origin: Option<Origin>,
    asPath: Option<AsPath>,
    as4Path: Option<AsPath>,
    nextHop: Option<Address>,
    med: Option<U32>,
    localPref: Option<U32>,
    atomicAggregate: bool,
    extCommunities: seq<seq<U8>>,
    mpReach: Option<MpReach>,
    mpUnreach: Option<MpUnreach>,
    originatorId: Option<Address>,
    clusterList: seq<Address>
  )

  const NOTHING: Parsed := Parsed(None, None, None, None, None, None, false, [], None, None, None, [])

  function OriginOf(v: U8): Result<Origin> {
    match v
    case 0 => Ok(Igp)
    case 1 => Ok(Egp)
    case 2 => Ok(Incomplete)
    case _ => Err(SUB_INVALID_ORIGIN)
  }

  function ParseWellKnown(p: Parsed, flags: U8, code: U8, v: seq<U8>, four: bool): Result<Parsed>
    requires code == ORIGIN || code == AS_PATH || code == NEXT_HOP
  {
    if HasBit(flags, OPTIONAL) then Err(SUB_FLAGS)
    else if code == ORIGIN then
      if |v| != 1 then Err(SUB_LENGTH)
      else
        var o :- OriginOf(v[0]);
        Ok(p.(origin := Some(o)))
    else if code == AS_PATH then
      var path :- DecodePath(v, four);
      Ok(p.(asPath := Some(path)))
    else if |v| != 4 then Err(SUB_LENGTH)
    else Ok(p.(nextHop := Some(From32(v))))
  }

  function ParseReflection(p: Parsed, flags: U8, code: U8, v: seq<U8>): Result<Parsed>
    requires code == ORIGINATOR_ID || code == CLUSTER_LIST
  {
    if !HasBit(flags, OPTIONAL) || HasBit(flags, TRANSITIVE) then Err(SUB_FLAGS)
    else if code == ORIGINATOR_ID then
      if |v| != 4 then Err(SUB_LENGTH) else Ok(p.(originatorId := Some(From32(v))))
    else if v == [] || |v| % 4 != 0 || |v| / 4 > MAX_CLUSTER_LIST_LEN then Err(SUB_LENGTH)
    else Ok(p.(clusterList := p.clusterList + DecodeAsns(v, |v| / 4, true)))
  }

  function ParseMultiprotocol(p: Parsed, flags: U8, code: U8, v: seq<U8>): Result<Parsed>
    requires code == MP_REACH || code == MP_UNREACH || code == AS4_PATH
  {
    if !HasBit(flags, OPTIONAL) then Err(SUB_FLAGS)
    else if code == AS4_PATH then
      var path :- DecodePath(v, true);
      Ok(p.(as4Path := Some(path)))
    else if code == MP_REACH then
      var m :- ParseReach(v);
      Ok(p.(mpReach := Some(m)))
    else
      var m :- ParseUnreach(v);
      Ok(p.(mpUnreach := Some(m)))
  }

  /** The effect of one attribute on what has been read so far. */
  function ParseOne(p: Parsed, flags: U8, code: U8, v: seq<U8>, four: bool): Result<Parsed> {
    if code == ORIGIN || code == AS_PATH || code == NEXT_HOP then ParseWellKnown(p, flags, code, v, four)
    else if code == ORIGINATOR_ID || code == CLUSTER_LIST then ParseReflection(p, flags, code, v)
    else if code == MP_REACH || code == MP_UNREACH || code == AS4_PATH then ParseMultiprotocol(p, flags, code, v)
    else if code == MED then
      if |v| != 4 then Err(SUB_LENGTH) else Ok(p.(med := Some(From32(v))))
    else if code == LOCAL_PREF then
      if |v| != 4 then Err(SUB_LENGTH) else Ok(p.(localPref := Some(From32(v))))
    else if code == ATOMIC_AGGREGATE then
      if v != [] then Err(SUB_LENGTH) else Ok(p.(atomicAggregate := true))
    else if code == EXT_COMMUNITIES then
      if v == [] || |v| % 8 != 0 then Err(SUB_LENGTH)
      else Ok(p.(extCommunities := p.extCommunities + ParseCommunities(v)))
    else if !HasBit(flags, OPTIONAL) then Err(SUB_UNRECOGNIZED)
    else Ok(p)
  }

  /** Header length and value length of the attribute at the front of `data`. */
  function HeaderOf(data: seq<U8>): Result<(nat, nat)> {
    if |data| < 2 then Err(SUB_MALFORMED_LIST)
    else if HasBit(data[0], EXTENDED) then
      if |data| < 4 then Err(SUB_LENGTH) else Ok((4, From16(data[2..4])))
    else if |data| < 3 then Err(SUB_LENGTH)
    else Ok((3, data[2]))
  }

  /** Reads the rest of the block; a repeated attribute is refused. */
  function ParseFrom(data: seq<U8>, four: bool, p: Parsed, seen: set<U8>): Result<Parsed>
    decreases |data|
  {
    if data == [] then Ok(p)
    else
      var (hdr, len) :- HeaderOf(data);
      if hdr + len > |data| then Err(SUB_LENGTH)
      else if data[1] in seen then Err(SUB_MALFORMED_LIST)
      else
        var q :- ParseOne(p, data[0], data[1], data[hdr..hdr + len], four);
        ParseFrom(data[hdr + len..], four, q, seen + {data[1]})
  }

  /** Enforces the attributes that what is announced requires, then folds AS4_PATH in. */
  function IntoAttributes(p: Parsed, hasNlri: bool, announcesMp: bool): Result<PathAttributes> {
    var announces := hasNlri || announcesMp;
    if announces && (p.origin.None? || p.asPath.None?) then Err(SUB_MISSING)
    else if hasNlri && p.nextHop.None? then Err(SUB_MISSING)
    else
      var path := p.asPath.GetOr(AsPath([]));
      Ok(PathAttributes(
        p.origin.GetOr(Igp),
        if p.as4Path.Some? then MergeAs4(path, p.as4Path.value) else path,
        p.nextHop.GetOr(UNSPECIFIED), p.med, p.localPref, p.atomicAggregate, p.extCommunities,
        p.mpReach, p.mpUnreach, p.originatorId, p.clusterList, false))
  }

  // ------------------------------------------------- parsing what was encoded

  lemma FlagBits(a: RawAttr)
    requires a.Encodable()
    ensures !HasBit(a.flags, EXTENDED) && a.flags + EXTENDED < 0x100
    ensures HasBit(a.flags + EXTENDED, EXTENDED)
    ensures HasBit(a.flags + EXTENDED, OPTIONAL) == HasBit(a.flags, OPTIONAL)
    ensures HasBit(a.flags + EXTENDED, TRANSITIVE) == HasBit(a.flags, TRANSITIVE)
  {}

  /** The extended-length flag does not change what an attribute means. */
  lemma ExtendedFlagIgnored(p: Parsed, a: RawAttr, four: bool)
    requires a.Encodable()
    ensures a.flags + EXTENDED < 0x100
    ensures ParseOne(p, a.flags + EXTENDED, a.code, a.value, four) == ParseOne(p, a.flags, a.code, a.value, four)
  {
    FlagBits(a);
  }

  lemma AttributeFront(a: RawAttr, rest: seq<U8>)
    requires a.Encodable()
    ensures var data := PushAttribute(a) + rest;
            var hdr := if |a.value| > 0xFF then 4 else 3;
            && HeaderOf(data) == Ok((hdr, |a.value|)) && hdr + |a.value| <= |data|
            && data[1] == a.code && data[hdr..hdr + |a.value|] == a.value && data[hdr + |a.value|..] == rest
            && data[0] == if |a.value| > 0xFF then a.flags + EXTENDED else a.flags
  {
    FlagBits(a);
    var data := PushAttribute(a) + rest;
    if |a.value| > 0xFF {
      assert data[2..4] == Be16(|a.value|);
      Be16RoundTrip(|a.value|);
    }
  }

  /** Parsing an encoded attribute applies it and goes on with what follows. */
  lemma AttributeParses(a: RawAttr, rest: seq<U8>, four: bool, p: Parsed, q: Parsed, seen: set<U8>)
    requires a.Encodable() && a.code !in seen && ParseOne(p, a.flags, a.code, a.value, four) == Ok(q)
    ensures ParseFrom(PushAttribute(a) + rest, four, p, seen) == ParseFrom(rest, four, q, seen + {a.code})
  {
    AttributeFront(a, rest);
    ExtendedFlagIgnored(p, a, four);
  }

  lemma AttributeThen(a: RawAttr, rest: seq<U8>, four: bool, p: Parsed, q: Parsed, seen: set<U8>, end: Parsed)
    requires a.Encodable() && a.code !in seen && ParseOne(p, a.flags, a.code, a.value, four) == Ok(q)
    requires ParseFrom(rest, four, q, seen + {a.code}) == Ok(end)
    ensures ParseFrom(PushAttribute(a) + rest, four, p, seen) == Ok(end)
  {
    AttributeParses(a, rest, four, p, q, seen);
  }

  lemma OptionalThen(present: bool, a: RawAttr, rest: seq<U8>, four: bool, p: Parsed, q: Parsed, seen: set<U8>, end: Parsed)
    requires present ==> a.Encodable() && a.code !in seen && ParseOne(p, a.flags, a.code, a.value, four) == Ok(q)
    requires !present ==> p == q
    requires ParseFrom(rest, four, q, if present then seen + {a.code} else seen) == Ok(end)
    ensures ParseFrom(PushIf(present, a) + rest, four, p, seen) == Ok(end)
  {
    if present {
      AttributeParses(a, rest, four, p, q, seen);
    } else {
      assert [] + rest == rest;
    }
  }

  /** What the encoder's own message types guarantee about an attribute set. */
  ghost predicate WellFormed(a: PathAttributes, hasNlri: bool) {
    && Tidy(a.asPath.segments)
    && EightOctets(a.extCommunities)
    && |a.clusterList| <= MAX_CLUSTER_LIST_LEN
    && (a.mpReach.Some? ==> |a.mpReach.value.nextHop| <= 0xFF && |a.mpReach.value.nlri| <= MAX_MP_NLRI_BYTES)
    && (a.mpUnreach.Some? ==> |a.mpUnreach.value.nlri| <= MAX_MP_NLRI_BYTES)
    && (!hasNlri ==> a.nextHop == UNSPECIFIED)
    && (WithdrawOnly(a, hasNlri) ==> a == WithdrawalAttributes(a.mpUnreach.value, a.fourOctetAs))
  }

  function WithdrawalAttributes(m: MpUnreach, fourOctetAs: bool): PathAttributes {
    PathAttributes(Igp, AsPath([]), UNSPECIFIED, None, None, false, [], None, Some(m), None, [], fourOctetAs)
  }

  /** What the parser has read once it has gone through the whole block. */
  function Reading(a: PathAttributes, hasNlri: bool): Parsed {
    Parsed(Some(a.origin), Some(AsPath(Seen(a.asPath.segments, a.fourOctetAs))), As4Reading(a),
           if hasNlri then Some(a.nextHop) else None, a.med, a.localPref, a.atomicAggregate,
           a.extCommunities, a.mpReach, a.mpUnreach, a.originatorId, a.clusterList)
  }

  /** Every value in the block is short enough for its length field. */
  ghost predicate Fits(a: PathAttributes) {
    && |EncodePath(a.asPath, a.fourOctetAs)| < 0x1_0000 && (SendsAs4(a) ==> |EncodePath(a.asPath, true)| < 0x1_0000)
    && |EncodeCommunities(a.extCommunities)| < 0x1_0000
  }

  function As4Reading(a: PathAttributes): Option<AsPath> {
    if SendsAs4(a) then Some(AsPath(Seen(a.asPath.segments, true))) else None
  }

  // Attribute by attribute, from the last one pushed back to the first: what is
  // still to come, what reading it adds, and that reading it succeeds.

  function FillUnreach(p: Parsed, a: PathAttributes): Parsed {
    p.(mpUnreach := a.mpUnreach)
  }

  ghost predicate AwaitsUnreach(p: Parsed, seen: set<U8>) {
    p.mpUnreach.None? && MP_UNREACH !in seen
  }

  function FillReach(p: Parsed, a: PathAttributes): Parsed {
    FillUnreach(p.(mpReach := a.mpReach), a)
  }

  ghost predicate AwaitsReach(p: Parsed, seen: set<U8>) {
    p.mpReach.None? && MP_REACH !in seen && AwaitsUnreach(p, seen)
  }

  function FillCommunities(p: Parsed, a: PathAttributes): Parsed {
    FillReach(p.(extCommunities := a.extCommunities), a)
  }

  ghost predicate AwaitsCommunities(p: Parsed, seen: set<U8>) {
    p.extCommunities == [] && EXT_COMMUNITIES !in seen && AwaitsReach(p, seen)
  }

  function FillClusters(p: Parsed, a: PathAttributes): Parsed {
    FillCommunities(p.(clusterList := a.clusterList), a)
  }

  ghost predicate AwaitsClusters(p: Parsed, seen: set<U8>) {
    p.clusterList == [] && CLUSTER_LIST !in seen && AwaitsCommunities(p, seen)
  }

  function FillOriginator(p: Parsed, a: PathAttributes): Parsed {
    FillClusters(p.(originatorId := a.originatorId), a)
  }

  ghost predicate AwaitsOriginator(p: Parsed, seen: set<U8>) {
    p.originatorId.None? && ORIGINATOR_ID !in seen && AwaitsClusters(p, seen)
  }

  function FillAtomic(p: Parsed, a: PathAttributes): Parsed {
    FillOriginator(p.(atomicAggregate := a.atomicAggregate), a)
  }

  ghost predicate AwaitsAtomic(p: Parsed, seen: set<U8>) {
    !p.atomicAggregate && ATOMIC_AGGREGATE !in seen && AwaitsOriginator(p, seen)
  }

  function FillLocalPref(p: Parsed, a: PathAttributes): Parsed {
    FillAtomic(p.(localPref := a.localPref), a)
  }

  ghost predicate AwaitsLocalPref(p: Parsed, seen: set<U8>) {
    p.localPref.None? && LOCAL_PREF !in seen && AwaitsAtomic(p, seen)
  }

  function FillMed(p: Parsed, a: PathAttributes): Parsed {
    FillLocalPref(p.(med := a.med), a)
  }

  ghost predicate AwaitsMed(p: Parsed, seen: set<U8>) {
    p.med.None? && MED !in seen && AwaitsLocalPref(p, seen)
  }

  function FillNextHop(p: Parsed, a: PathAttributes, hasNlri: bool): Parsed {
    FillMed(p.(nextHop := if hasNlri then Some(a.nextHop) else None), a)
  }

  ghost predicate AwaitsNextHop(p: Parsed, seen: set<U8>) {
    p.nextHop.None? && NEXT_HOP !in seen && AwaitsMed(p, seen)
  }

  function FillAs4(p: Parsed, a: PathAttributes, hasNlri: bool): Parsed {
    FillNextHop(p.(as4Path := As4Reading(a)), a, hasNlri)
  }

  ghost predicate AwaitsAs4(p: Parsed, seen: set<U8>) {
    p.as4Path.None? && AS4_PATH !in seen && AwaitsNextHop(p, seen)
  }

  lemma ClusterListParses(a: PathAttributes, p: Parsed, four: bool)
    requires 0 < |a.clusterList| <= MAX_CLUSTER_LIST_LEN && p.clusterList == []
    ensures ClusterAttr(a).Encodable()
    ensures ParseOne(p, OPTIONAL, CLUSTER_LIST, ClusterAttr(a).value, four) == Ok(p.(clusterList := a.clusterList))
  {
    AsnsRoundTrip(a.clusterList, true);
    assert [] + a.clusterList == a.clusterList;
  }

  lemma OriginatorReads(a: PathAttributes, p: Parsed, four: bool)
    requires a.originatorId.Some?
    ensures OriginatorAttr(a).Encodable()
    ensures ParseOne(p, OPTIONAL, ORIGINATOR_ID, OriginatorAttr(a).value, four) == Ok(p.(originatorId := a.originatorId))
  {
    Be32RoundTrip(a.originatorId.value);
  }

  lemma AtomicReads(p: Parsed, four: bool)
    ensures AtomicAttr().Encodable()
    ensures ParseOne(p, TRANSITIVE, ATOMIC_AGGREGATE, [], four) == Ok(p.(atomicAggregate := true))
  {}

  lemma MedReads(a: PathAttributes, p: Parsed, four: bool)
    requires a.med.Some?
    ensures MedAttr(a).Encodable()
    ensures ParseOne(p, OPTIONAL, MED, MedAttr(a).value, four) == Ok(p.(med := a.med))
  {
    Be32RoundTrip(a.med.value);
  }

  lemma LocalPrefReads(a: PathAttributes, p: Parsed, four: bool)
    requires a.localPref.Some?
    ensures LocalPrefAttr(a).Encodable()
    ensures ParseOne(p, TRANSITIVE, LOCAL_PREF, LocalPrefAttr(a).value, four) == Ok(p.(localPref := a.localPref))
  {
    Be32RoundTrip(a.localPref.value);
  }

  lemma CommunitiesRead(a: PathAttributes, p: Parsed, four: bool)
    requires a.extCommunities != [] && EightOctets(a.extCommunities) && p.extCommunities == []
    ensures ParseOne(p, 0xC0, EXT_COMMUNITIES, EncodeCommunities(a.extCommunities), four) ==
              Ok(p.(extCommunities := a.extCommunities))
  {
    CommunitiesRoundTrip(a.extCommunities);
    assert [] + a.extCommunities == a.extCommunities;
  }

  lemma NextHopReads(a: PathAttributes, p: Parsed, four: bool)
    ensures NextHopAttr(a).Encodable()
    ensures ParseOne(p, TRANSITIVE, NEXT_HOP, Be32(a.nextHop), four) == Ok(p.(nextHop := Some(a.nextHop)))
  {
    Be32RoundTrip(a.nextHop);
  }

  lemma As4Reads(a: PathAttributes, p: Parsed, four: bool)
    ensures ParseOne(p, 0xC0, AS4_PATH, EncodePath(a.asPath, true), four) ==
              Ok(p.(as4Path := Some(AsPath(Seen(a.asPath.segments, true)))))
  {
    PathRoundTrip(a.asPath.segments, true);
  }

  lemma PathReads(a: PathAttributes, p: Parsed)
    ensures ParseOne(p, TRANSITIVE, AS_PATH, EncodePath(a.asPath, a.fourOctetAs), a.fourOctetAs) ==
              Ok(p.(asPath := Some(AsPath(Seen(a.asPath.segments, a.fourOctetAs)))))
  {
    PathRoundTrip(a.asPath.segments, a.fourOctetAs);
  }

  lemma OriginReads(a: PathAttributes, p: Parsed, four: bool)
    ensures OriginAttr(a).Encodable()
    ensures ParseOne(p, TRANSITIVE, ORIGIN, [a.origin.Rank()], four) == Ok(p.(origin := Some(a.origin)))
  {}

  lemma UnreachOn(a: PathAttributes, hasNlri: bool, four: bool, p: Parsed, seen: set<U8>)
    requires WellFormed(a, hasNlri) && Fits(a) && AwaitsUnreach(p, seen)
    ensures ParseFrom(FromUnreach(a), four, p, seen) == Ok(FillUnreach(p, a))
  {
    if a.mpUnreach.Some? { UnreachRoundTrip(a.mpUnreach.value); }
    var q := p.(mpUnreach := a.mpUnreach);
    OptionalThen(a.mpUnreach.Some?, UnreachAttr(a), [], four, p, q, seen, FillUnreach(p, a));
  }

  lemma ReachOn(a: PathAttributes, hasNlri: bool, four: bool, p: Parsed, seen: set<U8>)
    requires WellFormed(a, hasNlri) && Fits(a) && AwaitsReach(p, seen)
    ensures ParseFrom(FromReach(a), four, p, seen) == Ok(FillReach(p, a))
  {
    if a.mpReach.Some? { ReachRoundTrip(a.mpReach.value); }
    var q := p.(mpReach := a.mpReach);
    UnreachOn(a, hasNlri, four, q, if a.mpReach.Some? then seen + {MP_REACH} else seen);
    OptionalThen(a.mpReach.Some?, ReachAttr(a), FromUnreach(a), four, p, q, seen, FillReach(p, a));
  }

  lemma CommunitiesOn(a: PathAttributes, hasNlri: bool, four: bool, p: Parsed, seen: set<U8>)
    requires WellFormed(a, hasNlri) && Fits(a) && AwaitsCommunities(p, seen)
    ensures ParseFrom(FromCommunities(a), four, p, seen) == Ok(FillCommunities(p, a))
  {
    if a.extCommunities != [] { CommunitiesRead(a, p, four); }
    var q := p.(extCommunities := a.extCommunities);
    ReachOn(a, hasNlri, four, q, if a.extCommunities != [] then seen + {EXT_COMMUNITIES} else seen);
    OptionalThen(a.extCommunities != [], CommunityAttr(a), FromReach(a), four, p, q, seen, FillCommunities(p, a));
  }

  lemma ClustersOn(a: PathAttributes, hasNlri: bool, four: bool, p: Parsed, seen: set<U8>)
    requires WellFormed(a, hasNlri) && Fits(a) && AwaitsClusters(p, seen)
    ensures ParseFrom(FromClusters(a), four, p, seen) == Ok(FillClusters(p, a))
  {
    if a.clusterList != [] { ClusterListParses(a, p, four); }
    var q := p.(clusterList := a.clusterList);
    CommunitiesOn(a, hasNlri, four, q, if a.clusterList != [] then seen + {CLUSTER_LIST} else seen);
    OptionalThen(a.clusterList != [], ClusterAttr(a), FromCommunities(a), four, p, q, seen, FillClusters(p, a));
  }

  lemma OriginatorOn(a: PathAttributes, hasNlri: bool, four: bool, p: Parsed, seen: set<U8>)
    requires WellFormed(a, hasNlri) && Fits(a) && AwaitsOriginator(p, seen)
    ensures ParseFrom(FromOriginator(a), four, p, seen) == Ok(FillOriginator(p, a))
  {
    if a.originatorId.Some? { OriginatorReads(a, p, four); }
    var q := p.(originatorId := a.originatorId);
    ClustersOn(a, hasNlri, four, q, if a.originatorId.Some? then seen + {ORIGINATOR_ID} else seen);
    OptionalThen(a.originatorId.Some?, OriginatorAttr(a), FromClusters(a), four, p, q, seen, FillOriginator(p, a));
  }

  lemma AtomicOn(a: PathAttributes, hasNlri: bool, four: bool, p: Parsed, seen: set<U8>)
    requires WellFormed(a, hasNlri) && Fits(a) && AwaitsAtomic(p, seen)
    ensures ParseFrom(FromAtomic(a), four, p, seen) == Ok(FillAtomic(p, a))
  {
    AtomicReads(p, four);
    var q := p.(atomicAggregate := a.atomicAggregate);
    OriginatorOn(a, hasNlri, four, q, if a.atomicAggregate then seen + {ATOMIC_AGGREGATE} else seen);
    OptionalThen(a.atomicAggregate, AtomicAttr(), FromOriginator(a), four, p, q, seen, FillAtomic(p, a));
  }

  lemma LocalPrefOn(a: PathAttributes, hasNlri: bool, four: bool, p: Parsed, seen: set<U8>)
    requires WellFormed(a, hasNlri) && Fits(a) && AwaitsLocalPref(p, seen)
    ensures ParseFrom(FromLocalPref(a), four, p, seen) == Ok(FillLocalPref(p, a))
  {
    if a.localPref.Some? { LocalPrefReads(a, p, four); }
    var q := p.(localPref := a.localPref);
    AtomicOn(a, hasNlri, four, q, if a.localPref.Some? then seen + {LOCAL_PREF} else seen);
    OptionalThen(a.localPref.Some?, LocalPrefAttr(a), FromAtomic(a), four, p, q, seen, FillLocalPref(p, a));
  }

  lemma MedOn(a: PathAttributes, hasNlri: bool, four: bool, p: Parsed, seen: set<U8>)
    requires WellFormed(a, hasNlri) && Fits(a) && AwaitsMed(p, seen)
    ensures ParseFrom(FromMed(a), four, p, seen) == Ok(FillMed(p, a))
  {
    if a.med.Some? { MedReads(a, p, four); }
    var q := p.(med := a.med);
    LocalPrefOn(a, hasNlri, four, q, if a.med.Some? then seen + {MED} else seen);
    OptionalThen(a.med.Some?, MedAttr(a), FromLocalPref(a), four, p, q, seen, FillMed(p, a));
  }

  lemma NextHopOn(a: PathAttributes, hasNlri: bool, four: bool, p: Parsed, seen: set<U8>)
    requires WellFormed(a, hasNlri) && Fits(a) && AwaitsNextHop(p, seen)
    ensures ParseFrom(FromNextHop(a, hasNlri), four, p, seen) == Ok(FillNextHop(p, a, hasNlri))
  {
    NextHopReads(a, p, four);
    var q := p.(nextHop := if hasNlri then Some(a.nextHop) else None);
    MedOn(a, hasNlri, four, q, if hasNlri then seen + {NEXT_HOP} else seen);
    OptionalThen(hasNlri, NextHopAttr(a), FromMed(a), four, p, q, seen, FillNextHop(p, a, hasNlri));
  }

  lemma As4On(a: PathAttributes, hasNlri: bool, four: bool, p: Parsed, seen: set<U8>)
    requires WellFormed(a, hasNlri) && Fits(a) && AwaitsAs4(p, seen)
    ensures ParseFrom(FromAs4(a, hasNlri), four, p, seen) == Ok(FillAs4(p, a, hasNlri))
  {
    As4Reads(a, p, four);
    var q := p.(as4Path := As4Reading(a));
    NextHopOn(a, hasNlri, four, q, if SendsAs4(a) then seen + {AS4_PATH} else seen);
    OptionalThen(SendsAs4(a), As4Attr(a), FromNextHop(a, hasNlri), four, p, q, seen, FillAs4(p, a, hasNlri));
  }

  lemma PathOn(a: PathAttributes, hasNlri: bool, p: Parsed)
    requires WellFormed(a, hasNlri) && Fits(a) && AwaitsAs4(p, {ORIGIN} + {AS_PATH})
    ensures ParseFrom(PushAttribute(PathAttr(a)) + FromAs4(a, hasNlri), a.fourOctetAs, p, {ORIGIN}) ==
              Ok(FillAs4(p.(asPath := Some(AsPath(Seen(a.asPath.segments, a.fourOctetAs)))), a, hasNlri))
  {
    PathReads(a, p);
    var q := p.(asPath := Some(AsPath(Seen(a.asPath.segments, a.fourOctetAs))));
    As4On(a, hasNlri, a.fourOctetAs, q, {ORIGIN} + {AS_PATH});
    AttributeThen(PathAttr(a), FromAs4(a, hasNlri), a.fourOctetAs, p, q, {ORIGIN}, FillAs4(q, a, hasNlri));
  }

  /** Parsing an encoded block reads back every attribute, at whichever width it was written. */
  lemma BlockParses(a: PathAttributes, hasNlri: bool)
    requires WellFormed(a, hasNlri) && Fits(a) && !WithdrawOnly(a, hasNlri)
    ensures ParseFrom(EncodeAttributes(a, hasNlri), a.fourOctetAs, NOTHING, {}) == Ok(Reading(a, hasNlri))
  {
    var p := NOTHING.(origin := Some(a.origin));
    OriginReads(a, NOTHING, a.fourOctetAs);
    PathOn(a, hasNlri, p);
    assert {} + {ORIGIN} == {ORIGIN};
    AttributeThen(OriginAttr(a), PushAttribute(PathAttr(a)) + FromAs4(a, hasNlri), a.fourOctetAs, NOTHING, p, {},
                  Reading(a, hasNlri));
  }

  // ------------------------------------------------------------- sizes

  lemma PushedSize(a: RawAttr)
    ensures |PushAttribute(a)| >= |a.value|
  {}

  lemma TailSizes(a: PathAttributes, hasNlri: bool)
    ensures |FromAs4(a, hasNlri)| >= |PushIf(SendsAs4(a), As4Attr(a))|
    ensures |FromAs4(a, hasNlri)| >= |FromCommunities(a)|
  {
    assert |FromLocalPref(a)| >= |FromAtomic(a)| >= |FromOriginator(a)| >= |FromClusters(a)| >= |FromCommunities(a)|;
    assert |FromNextHop(a, hasNlri)| >= |FromMed(a)| >= |FromLocalPref(a)|;
  }

  /** A block that fits a message has only values that fit their length fields. */
  lemma SmallBlockFits(a: PathAttributes, hasNlri: bool)
    requires !WithdrawOnly(a, hasNlri) && |EncodeAttributes(a, hasNlri)| <= MAX_MESSAGE_LEN
    ensures Fits(a)
  {
    TailSizes(a, hasNlri);
    PushedSize(PathAttr(a));
    PushedSize(As4Attr(a));
    PushedSize(CommunityAttr(a));
    assert |EncodeAttributes(a, hasNlri)| >= |PushAttribute(PathAttr(a))|;
    assert |EncodeAttributes(a, hasNlri)| >= |FromAs4(a, hasNlri)|;
    assert |FromCommunities(a)| >= |PushIf(a.extCommunities != [], CommunityAttr(a))|;
  }

  // --------------------------------------------------------- message and body

  predicate Describes(u: Update) {
    u.nlri != [] || (u.attributes.Some? && (u.attributes.value.mpReach.Some? || u.attributes.value.mpUnreach.Some?))
  }

  /** Attributes go on the wire only when they describe something. */
  function AttributeBytes(u: Update): seq<U8> {
    if u.attributes.Some? && Describes(u) then EncodeAttributes(u.attributes.value, u.nlri != []) else []
  }

  /** A field preceded by its two-octet length. */
  function Counted(b: seq<U8>): seq<U8> {
    Be16(|b| % 0x1_0000) + b
  }

  function EncodeBody(u: Update): seq<U8>
    requires AllCanonical(u.withdrawn) && AllCanonical(u.nlri)
  {
    Counted(EncodePrefixes(u.withdrawn)) + (Counted(AttributeBytes(u)) + EncodePrefixes(u.nlri))
  }

  function ParseRest(withdrawn: seq<Prefix>, block: seq<U8>, tail: seq<U8>, four: bool): Result<Update> {
    var parsed :- ParseFrom(block, four, NOTHING, {});
    var nlri :- DecodePrefixes(tail);
    if |nlri| == 0 && parsed.mpReach.None? && parsed.mpUnreach.None? then Ok(Update(withdrawn, None, nlri))
    else
      var attrs :- IntoAttributes(parsed, |nlri| > 0, parsed.mpReach.Some?);
      Ok(Update(withdrawn, Some(attrs), nlri))
  }

  /** The withdrawn field, and the attribute block with what follows it. */
  function BodyFields(body: seq<U8>): Result<(seq<U8>, Result<(seq<U8>, seq<U8>)>)> {
    if |body| < 4 then Err(SUB_MALFORMED_LIST)
    else
      var wlen := From16(body[..2]) as int;
      if 2 + wlen + 2 > |body| then Err(SUB_MALFORMED_LIST)
      else
        var start := 2 + wlen + 2;
        var alen := From16(body[2 + wlen..start]) as int;
        Ok((body[2..2 + wlen],
            if start + alen > |body| then Err(SUB_MALFORMED_LIST)
            else Ok((body[start..start + alen], body[start + alen..]))))
  }

  /** Withdrawn prefixes are decoded before the attribute length is even looked at. */
  function ParseBody(body: seq<U8>, four: bool): Result<Update> {
    var fields :- BodyFields(body);
    var withdrawn :- DecodePrefixes(fields.0);
    var (block, tail) :- fields.1;
    ParseRest(withdrawn, block, tail, four)
  }

  const MARKER: seq<U8> :=
    [0xFF, 0xFF, 0xFF, 0xFF, 0xFF, 0xFF, 0xFF, 0xFF, 0xFF, 0xFF, 0xFF, 0xFF, 0xFF, 0xFF, 0xFF, 0xFF]

  function WithHeader(code: U8, body: seq<U8>): seq<U8> {
    MARKER + Be16((HEADER_LEN + |body|) % 0x1_0000) + [code] + body
  }

  function EncodeUpdate(u: Update): seq<U8>
    requires AllCanonical(u.withdrawn) && AllCanonical(u.nlri)
  {
    WithHeader(MSG_UPDATE, EncodeBody(u))
  }

  datatype Outcome = HeaderError(subcode: U8) | OtherMessage(code: U8, body: seq<U8>) | UpdateBody(result: Result<Update>)

  function MinimumLength(code: U8): Option<nat> {
    match code
    case 1 => Some(HEADER_LEN + 10)
    case 2 => Some(HEADER_LEN + 4)
    case 3 => Some(HEADER_LEN + 2)
    case 4 => Some(HEADER_LEN)
    case 5 => Some(HEADER_LEN)
    case _ => None
  }

  /** Marker, length range, type, minimum length, then the exact frame length, in that order. */
  function ParseMessage(frame: seq<U8>, four: bool): Outcome {
    if |frame| < HEADER_LEN then HeaderError(2)
    else if frame[..16] != MARKER then HeaderError(1)
    else
      var length := From16(frame[16..18]) as int;
      if !(HEADER_LEN <= length <= MAX_MESSAGE_LEN) then HeaderError(2)
      else if MinimumLength(frame[18]).None? then HeaderError(3)
      else if length < MinimumLength(frame[18]).value then HeaderError(2)
      else if |frame| != length then HeaderError(2)
      else if frame[18] == MSG_UPDATE then UpdateBody(ParseBody(frame[HEADER_LEN..], four))
      else OtherMessage(frame[18], frame[HEADER_LEN..])
  }

  /** An UPDATE as this speaker builds them, for a session of the given width. */
  ghost predicate WellFormedUpdate(u: Update, four: bool) {
    && AllCanonical(u.withdrawn) && AllCanonical(u.nlri)
    && (u.attributes.None? ==> u.nlri == [])
    && (u.attributes.Some? ==>
          Describes(u) && u.attributes.value.fourOctetAs == four && WellFormed(u.attributes.value, u.nlri != []))
  }

  /** What arrives: the same message, its path as a session of that width can carry it. */
  function Delivered(u: Update, four: bool): Update {
    if u.attributes.None? then u
    else
      var a := u.attributes.value;
      u.(attributes := Some(a.(fourOctetAs := false, asPath := if four then a.asPath else TwoOctetDelivery(a.asPath))))
  }

  lemma WithdrawalParses(a: PathAttributes)
    requires WellFormed(a, false) && WithdrawOnly(a, false)
    ensures ParseFrom(EncodeAttributes(a, false), a.fourOctetAs, NOTHING, {}) == Ok(NOTHING.(mpUnreach := a.mpUnreach))
  {
    UnreachRoundTrip(a.mpUnreach.value);
    assert PushAttribute(UnreachAttr(a)) + [] == PushAttribute(UnreachAttr(a));
    AttributeThen(UnreachAttr(a), [], a.fourOctetAs, NOTHING, NOTHING.(mpUnreach := a.mpUnreach), {},
                  NOTHING.(mpUnreach := a.mpUnreach));
  }

  lemma EmptyPathDelivery()
    ensures TwoOctetDelivery(AsPath([])) == AsPath([])
  {
    var p := AsPath([]);
    assert p.Flatten() == [] && !NeedsFourOctets(p);
    assert Split([]) == [] && Seen([], false) == [];
  }

  /** Reading the block and completing it gives the attributes back. */
  lemma AttributesRoundTrip(a: PathAttributes, hasNlri: bool)
    requires WellFormed(a, hasNlri) && |EncodeAttributes(a, hasNlri)| <= MAX_MESSAGE_LEN
    requires hasNlri || a.mpReach.Some? || a.mpUnreach.Some?
    ensures var parsed := ParseFrom(EncodeAttributes(a, hasNlri), a.fourOctetAs, NOTHING, {});
            && parsed.Ok? && parsed.value.mpReach == a.mpReach && parsed.value.mpUnreach == a.mpUnreach
            && IntoAttributes(parsed.value, hasNlri, a.mpReach.Some?) ==
                 Ok(a.(fourOctetAs := false,
                       asPath := if a.fourOctetAs then a.asPath else TwoOctetDelivery(a.asPath)))
  {
    SplitTidy(a.asPath.segments);
    if WithdrawOnly(a, hasNlri) {
      WithdrawalParses(a);
      EmptyPathDelivery();
    } else {
      SmallBlockFits(a, hasNlri);
      BlockParses(a, hasNlri);
    }
  }

  lemma WithdrawalRoundTrip(u: Update, four: bool)
    requires WellFormedUpdate(u, four) && u.attributes.None?
    ensures ParseRest(u.withdrawn, AttributeBytes(u), EncodePrefixes(u.nlri), four) == Ok(Delivered(u, four))
  {
    PrefixesRoundTrip(u.nlri);
  }

  lemma RestOf(withdrawn: seq<Prefix>, block: seq<U8>, tail: seq<U8>, four: bool, parsed: Parsed, nlri: seq<Prefix>, attrs: PathAttributes)
    requires ParseFrom(block, four, NOTHING, {}) == Ok(parsed) && DecodePrefixes(tail) == Ok(nlri)
    requires nlri != [] || parsed.mpReach.Some? || parsed.mpUnreach.Some?
    requires IntoAttributes(parsed, nlri != [], parsed.mpReach.Some?) == Ok(attrs)
    ensures ParseRest(withdrawn, block, tail, four) == Ok(Update(withdrawn, Some(attrs), nlri))
  {}

  lemma AnnouncementRoundTrip(u: Update, four: bool)
    requires WellFormedUpdate(u, four) && u.attributes.Some? && |AttributeBytes(u)| <= MAX_MESSAGE_LEN
    ensures ParseRest(u.withdrawn, AttributeBytes(u), EncodePrefixes(u.nlri), four) == Ok(Delivered(u, four))
  {
    var parsed := ParseFrom(AttributeBytes(u), four, NOTHING, {});
    PrefixesRoundTrip(u.nlri);
    AttributesRoundTrip(u.attributes.value, u.nlri != []);
    RestOf(u.withdrawn, AttributeBytes(u), EncodePrefixes(u.nlri), four, parsed.value, u.nlri, Delivered(u, four).attributes.value);
  }

  lemma RestRoundTrip(u: Update, four: bool)
    requires WellFormedUpdate(u, four) && |AttributeBytes(u)| <= MAX_MESSAGE_LEN
    ensures ParseRest(u.withdrawn, AttributeBytes(u), EncodePrefixes(u.nlri), four) == Ok(Delivered(u, four))
  {
    if u.attributes.None? {
      WithdrawalRoundTrip(u, four);
    } else {
      AnnouncementRoundTrip(u, four);
    }
  }

  lemma CountedFields(w: seq<U8>, attrs: seq<U8>, tail: seq<U8>)
    requires |w| < 0x1_0000 && |attrs| < 0x1_0000
    ensures BodyFields(Counted(w) + (Counted(attrs) + tail)) == Ok((w, Ok((attrs, tail))))
  {
    var body := Counted(w) + (Counted(attrs) + tail);
    var start := 2 + |w| + 2;
    assert body[..2] == Be16(|w|) && body[2..2 + |w|] == w;
    assert body[2 + |w|..start] == Be16(|attrs|);
    assert body[start..start + |attrs|] == attrs && body[start + |attrs|..] == tail;
    Be16RoundTrip(|w|);
    Be16RoundTrip(|attrs|);
  }

  lemma BodyRoundTrip(u: Update, four: bool)
    requires WellFormedUpdate(u, four) && |EncodeBody(u)| <= MAX_MESSAGE_LEN
    ensures ParseBody(EncodeBody(u), four) == Ok(Delivered(u, four))
  {
    var w, attrs, tail := EncodePrefixes(u.withdrawn), AttributeBytes(u), EncodePrefixes(u.nlri);
    assert |w| <= |EncodeBody(u)| && |attrs| <= |EncodeBody(u)|;
    PrefixesRoundTrip(u.withdrawn);
    CountedFields(w, attrs, tail);
    RestRoundTrip(u, four);
  }

  lemma HeaderFields(code: U8, body: seq<U8>)
    requires HEADER_LEN + |body| < 0x1_0000
    ensures var frame := WithHeader(code, body);
            && |frame| == HEADER_LEN + |body| && frame[..16] == MARKER && From16(frame[16..18]) == |frame|
            && frame[18] == code && frame[HEADER_LEN..] == body
  {
    var frame := WithHeader(code, body);
    assert frame[16..18] == Be16(HEADER_LEN + |body|);
    Be16RoundTrip(HEADER_LEN + |body|);
  }

  /**
   Every well-formed UPDATE of at most 4096 octets parses back to itself at the
   negotiated width; only the AS_PATH of a two-octet session is read through
   AS_TRANS and AS4_PATH.
   */
  lemma UpdateRoundTrip(u: Update, four: bool)
    requires WellFormedUpdate(u, four) && |EncodeUpdate(u)| <= MAX_MESSAGE_LEN
    ensures ParseMessage(EncodeUpdate(u), four) == UpdateBody(Ok(Delivered(u, four)))
  {
    assert |EncodeUpdate(u)| == HEADER_LEN + |EncodeBody(u)|;
    HeaderFields(MSG_UPDATE, EncodeBody(u));
    BodyRoundTrip(u, four);
  }

  /** On a two-octet session the ASNs of a sequence-only path all arrive. */
  lemma TwoOctetUpdateKeepsAsns(u: Update)
    requires WellFormedUpdate(u, false) && |EncodeUpdate(u)| <= MAX_MESSAGE_LEN
    requires u.attributes.Some? && SequenceOnly(u.attributes.value.asPath.segments)
    ensures var r := ParseMessage(EncodeUpdate(u), false);
            && r.UpdateBody? && r.result.Ok? && r.result.value.attributes.Some?
            && r.result.value.attributes.value.asPath.Flatten() == u.attributes.value.asPath.Flatten()
  {
    UpdateRoundTrip(u, false);
    SplitTidy(u.attributes.value.asPath.segments);
    TwoOctetRestoresIff(u.attributes.value.asPath);
  }

  // -------------------------------------------------------------- injectivity

  lemma NarrowInjective(a: seq<Segment>, b: seq<Segment>)
    requires NarrowSegments(a) == NarrowSegments(b)
    requires !NeedsFourOctets(AsPath(a)) && !NeedsFourOctets(AsPath(b))
    ensures a == b
  {
    FlattenNarrow(a);
    FlattenNarrow(b);
    NarrowLosesIff(AsPath(a).Flatten());
    NarrowLosesIff(AsPath(b).Flatten());
    assert |a| == |NarrowSegments(a)| == |NarrowSegments(b)| == |b|;
    forall i | 0 <= i < |a| ensures a[i] == b[i] {
      assert NarrowSegments(a)[i] == NarrowSegments(b)[i];
      SegmentFits(a, i);
      SegmentFits(b, i);
      NarrowLosesIff(a[i].asns);
      NarrowLosesIff(b[i].asns);
    }
  }

  lemma {:induction false} SegmentFits(segments: seq<Segment>, i: nat)
    requires i < |segments| && !NeedsFourOctets(AsPath(segments))
    ensures forall k :: 0 <= k < |segments[i].asns| ==> segments[i].asns[k] < 0x1_0000
    decreases i
  {
    var all := FlattenSegments(segments);
    var rest := FlattenSegments(segments[1..]);
    assert all == segments[0].asns + rest;
    assert AsPath(segments).Flatten() == all;
    if i == 0 {
      forall k | 0 <= k < |segments[0].asns| ensures segments[0].asns[k] < 0x1_0000 {
        assert all[k] == segments[0].asns[k];
      }
    } else {
      assert forall k :: 0 <= k < |rest| ==> all[|segments[0].asns| + k] == rest[k];
      assert AsPath(segments[1..]).Flatten() == rest;
      SegmentFits(segments[1..], i - 1);
    }
  }

  /** Two attribute sets for IPv4 NLRI that encode to the same octets are the same. */
  lemma EncodingIsInjective(a: PathAttributes, b: PathAttributes)
    requires WellFormed(a, true) && WellFormed(b, true) && Fits(a) && Fits(b) && a.fourOctetAs == b.fourOctetAs
    requires EncodeAttributes(a, true) == EncodeAttributes(b, true)
    ensures a == b
  {
    BlockParses(a, true);
    BlockParses(b, true);
    assert Reading(a, true) == Reading(b, true);
    SplitTidy(a.asPath.segments);
    SplitTidy(b.asPath.segments);
    if !a.fourOctetAs && !SendsAs4(a) {
      NarrowInjective(a.asPath.segments, b.asPath.segments);
    }
  }

  // ---------------------------------------------------------------- the loop

  lemma FirstAttribute(d: seq<U8>, four: bool, p: Parsed, seen: set<U8>, hdr: nat, len: nat)
    requires d != [] && HeaderOf(d) == Ok((hdr, len)) && 1 < hdr && hdr + len <= |d| && d[1] !in seen
    ensures var q := ParseOne(p, d[0], d[1], d[hdr..hdr + len], four);
            ParseFrom(d, four, p, seen) == if q.Err? then q else ParseFrom(d[hdr + len..], four, q.value, seen + {d[1]})
  {}

  /** One attribute off the block: header, bounds, duplicate check, then the attribute itself. */
  method ParseAttribute(data: seq<U8>, i: nat, four: bool, p: Parsed, seen: set<U8>) returns (r: Result<Parsed>, end: nat)
    requires i < |data|
    ensures r.Err? ==> ParseFrom(data[i..], four, p, seen) == r
    ensures r.Ok? ==>
              && i + 1 < end <= |data|
              && ParseFrom(data[i..], four, p, seen) == ParseFrom(data[end..], four, r.value, seen + {data[i + 1]})
  {
    end := i;
    var header := HeaderOf(data[i..]);
    if header.Err? {
      return Err(header.subcode), end;
    }
    var start := i + header.value.0;
    end := start + header.value.1;
    if end > |data| {
      return Err(SUB_LENGTH), end;
    }
    if data[i + 1] in seen {
      return Err(SUB_MALFORMED_LIST), end;
    }
    Slices(data, i, header.value.0, end);
    FirstAttribute(data[i..], four, p, seen, header.value.0, header.value.1);
    r := ParseOne(p, data[i], data[i + 1], data[start..end], four);
  }

  /** The attribute walk. */
  method ParseAttributes(data: seq<U8>, four: bool) returns (r: Result<Parsed>)
    ensures r == ParseFrom(data, four, NOTHING, {})
  {
    var parsed, seen: set<U8> := NOTHING, {};
    var i := 0;
    assert data[0..] == data;
    while i < |data|
      invariant 0 <= i <= |data|
      invariant ParseFrom(data, four, NOTHING, {}) == ParseFrom(data[i..], four, parsed, seen)
      decreases |data| - i
    {
      var one, end := ParseAttribute(data, i, four, parsed, seen);
      if one.Err? {
        return one;
      }
      parsed, seen, i := one.value, seen + {data[i + 1]}, end;
    }
    assert data[i..] == [];
    return Ok(parsed);
  }
}
