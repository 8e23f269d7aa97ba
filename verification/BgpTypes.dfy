/**
 Values shared by every part of the BGP speaker: integer widths, addresses,
 prefixes, AS paths, path attributes and stored paths.

 An IPv4 address is its 32-bit big-endian value, so comparing two addresses as
 integers is the byte-wise order the speaker uses.
 */
module BgpTypes {

  datatype Option<+T> = None | Some(value: T) {
    function GetOr(default: T): T {
      if Some? then value else default
    }

    function OrElse(other: Option<T>): Option<T> {
      if Some? then this else other
    }
  }

  type U8 = x: int | 0 <= x < 0x100
  type U16 = x: int | 0 <= x < 0x1_0000
  type U32 = x: int | 0 <= x < 0x1_0000_0000
  type U64 = x: int | 0 <= x < 0x1_0000_0000_0000_0000

  type Address = U32

  const UNSPECIFIED: Address := 0
  const DEFAULT_LOCAL_PREF: U32 := 100
  const MAX_CLUSTER_LIST_LEN: nat := 32
  const MAX_SEGMENT_ASNS: nat := 255

  /** NOTIFICATION subcode of an unusable AS_PATH. */
  const SUB_MALFORMED_AS_PATH: U8 := 11

  /** An address family as an OPEN names it. */
  datatype Family = Family(afi: U16, safi: U8)

  const IPV4_UNICAST: Family := Family(1, 1)
  const IPV6_UNICAST: Family := Family(2, 1)
  const L2VPN_EVPN: Family := Family(25, 70)

  /** A family inside a Graceful Restart capability. */
  datatype GrFamily = GrFamily(family: Family, forwarding: bool)

  /** The states of the session's finite state machine. */
  datatype State = Idle | Connect | Active | OpenSent | OpenConfirm | Established

  datatype Prefix = Prefix(address: Address, length: U8)

  datatype Origin = Igp | Egp | Incomplete {
    function Rank(): U8 {
      match this
      case Igp => 0
      case Egp => 1
      case Incomplete => 2
    }
  }

  // ---------------------------------------------------------------- AS_PATH

  datatype SegmentKind = AsSet | AsSequence

  datatype Segment = Segment(kind: SegmentKind, asns: seq<U32>)

  datatype AsPath = AsPath(segments: seq<Segment>) {

    /** True when our ASN is somewhere on the path. */
    predicate Contains(asn: U32) {
      exists i :: 0 <= i < |segments| && asn in segments[i].asns
    }

    predicate IsEmpty() {
      forall i :: 0 <= i < |segments| ==> segments[i].asns == []
    }

    /** Who an external announcement says sent it; a path that opens with a set names nobody. */
    function LeadingAs(): Option<U32> {
      if segments != [] && segments[0].kind.AsSequence? && segments[0].asns != [] then
        Some(segments[0].asns[0])
      else
        None
    }

    /** The number of hops the decision process sees: aggregation into a set hides how many there were. */
    function Length(): nat {
      SegmentsLength(segments)
    }

    /** The neighbour whose MED values are comparable; a set in front of it is passed over. */
    function FirstAs(): Option<U32> {
      FirstSequenceAs(segments)
    }

    /** The hops without their grouping, nearest first. */
    function Flatten(): seq<U32> {
      FlattenSegments(segments)
    }

    /** The path after one more external hop; no segment ever grows past what one octet can count. */
    function Prepend(asn: U32): AsPath {
      if segments != [] && segments[0].kind.AsSequence? && |segments[0].asns| < MAX_SEGMENT_ASNS then
        AsPath([Segment(AsSequence, [asn] + segments[0].asns)] + segments[1..])
      else
        AsPath([Segment(AsSequence, [asn])] + segments)
    }
  }

  function SegmentsLength(segments: seq<Segment>): nat {
    if segments == [] then 0
    else (if segments[0].kind.AsSequence? then |segments[0].asns| else 1) + SegmentsLength(segments[1..])
  }

  function FirstSequenceAs(segments: seq<Segment>): Option<U32> {
    if segments == [] then None
    else if segments[0].kind.AsSequence? then
      if segments[0].asns == [] then None else Some(segments[0].asns[0])
    else FirstSequenceAs(segments[1..])
  }

  function FlattenSegments(segments: seq<Segment>): seq<U32> {
    if segments == [] then [] else segments[0].asns + FlattenSegments(segments[1..])
  }

  /** Prepending puts exactly one ASN in front, whichever of the two forms it takes. */
  lemma PrependFlatten(p: AsPath, asn: U32)
    ensures p.Prepend(asn).Flatten() == [asn] + p.Flatten()
  {
    var q := p.Prepend(asn).segments;
    if p.segments != [] && p.segments[0].kind.AsSequence? && |p.segments[0].asns| < MAX_SEGMENT_ASNS {
      assert q[1..] == p.segments[1..];
    } else {
      assert q[1..] == p.segments;
    }
  }

  /** Loop detection by segment agrees with membership in the flattened list. */
  lemma {:induction false} ContainsFlatten(p: AsPath, asn: U32)
    ensures p.Contains(asn) <==> asn in p.Flatten()
    decreases |p.segments|
  {
    if p.segments != [] {
      var rest := AsPath(p.segments[1..]);
      ContainsFlatten(rest, asn);
      if p.Contains(asn) {
        var i :| 0 <= i < |p.segments| && asn in p.segments[i].asns;
        if i > 0 {
          assert rest.segments[i - 1] == p.segments[i];
          assert rest.Contains(asn);
        }
      }
      if rest.Contains(asn) {
        var i :| 0 <= i < |rest.segments| && asn in rest.segments[i].asns;
        assert asn in p.segments[i + 1].asns;
      }
      if asn in p.segments[0].asns {
        assert p.Contains(asn);
      }
    }
  }

  /** A path made of sequences is as long as it has hops. */
  lemma {:induction false} LengthCountsHops(p: AsPath)
    requires forall i :: 0 <= i < |p.segments| ==> p.segments[i].kind.AsSequence?
    ensures p.Length() == |p.Flatten()|
    decreases |p.segments|
  {
    if p.segments != [] {
      LengthCountsHops(AsPath(p.segments[1..]));
    }
  }

  lemma {:induction false} LengthAppend(a: seq<Segment>, b: seq<Segment>)
    ensures AsPath(a + b).Length() == AsPath(a).Length() + AsPath(b).Length()
    decreases |a|
  {
    if a == [] {
      assert a + b == b;
    } else {
      LengthAppend(a[1..], b);
      assert (a + b)[1..] == a[1..] + b;
    }
  }

  /** A set counts as one hop, wherever it stands and however many it hides. */
  lemma SetCountsOnce(a: seq<Segment>, asns: seq<U32>, b: seq<Segment>)
    ensures AsPath(a + [Segment(AsSet, asns)] + b).Length() == AsPath(a).Length() + 1 + AsPath(b).Length()
  {
    var s := [Segment(AsSet, asns)];
    assert s[1..] == [] && SegmentsLength(s[1..]) == 0;
    LengthAppend(a + s, b);
    LengthAppend(a, s);
  }

  /** One more external hop makes the path longer by one. */
  lemma PrependLength(p: AsPath, asn: U32)
    ensures p.Prepend(asn).Length() == p.Length() + 1
  {
    var q := p.Prepend(asn).segments;
    if p.segments != [] && p.segments[0].kind.AsSequence? && |p.segments[0].asns| < MAX_SEGMENT_ASNS {
      assert q[1..] == p.segments[1..];
    } else {
      assert q[1..] == p.segments;
    }
  }

  /** The neighbouring AS is the first one of the first sequence. */
  lemma {:induction false} FirstAsIff(p: AsPath, i: nat)
    requires i < |p.segments| && p.segments[i].kind.AsSequence?
    requires forall j :: 0 <= j < i ==> p.segments[j].kind.AsSet?
    ensures p.FirstAs() == if p.segments[i].asns == [] then None else Some(p.segments[i].asns[0])
    decreases i
  {
    if i > 0 {
      FirstAsIff(AsPath(p.segments[1..]), i - 1);
    }
  }

  lemma {:induction false} NoSequenceNoNeighbour(p: AsPath)
    requires forall j :: 0 <= j < |p.segments| ==> p.segments[j].kind.AsSet?
    ensures p.FirstAs().None?
    decreases |p.segments|
  {
    if p.segments != [] {
      NoSequenceNoNeighbour(AsPath(p.segments[1..]));
    }
  }

  // -------------------------------------------------------- path attributes

  datatype MpReach = MpReach(afi: U16, safi: U8, nextHop: seq<U8>, nlri: seq<U8>)

  datatype MpUnreach = MpUnreach(afi: U16, safi: U8, nlri: seq<U8>)

  datatype PathAttributes = PathAttributes(
    origin: Origin,
    asPath: AsPath,
    nextHop: Address,
    med: Option<U32>,
    localPref: Option<U32>,
    atomicAggregate: bool,
    extCommunities: seq<seq<U8>>,
    mpReach: Option<MpReach>,
    mpUnreach: Option<MpUnreach>,
    originatorId: Option<Address>,
    clusterList: seq<Address>,
    fourOctetAs: bool
  )

  datatype Update = Update(withdrawn: seq<Prefix>, attributes: Option<PathAttributes>, nlri: seq<Prefix>)

  // ------------------------------------------------------------------ paths

  datatype PathSource = Local | Ebgp | Ibgp

  /** One path to one prefix, as stored in the Adj-RIB-In or the Loc-RIB. */
  datatype BgpPath = BgpPath(
    prefix: Prefix,
    source: PathSource,
    peerAddr: Address,
    peerAs: U32,
    peerRouterId: Address,
    origin: Origin,
    asPath: AsPath,
    nextHop: Address,
    med: Option<U32>,
    localPref: U32,
    atomicAggregate: bool,
    originatorId: Option<Address>,
    clusterList: seq<Address>,
    fromClient: bool,
    receivedAt: nat
  ) {
    /** Equality on everything except the time of receipt. */
    predicate SameRouteAs(other: BgpPath) {
      this.(receivedAt := 0) == other.(receivedAt := 0)
    }
  }

  /** Two paths are the same route when nothing but the time of receipt tells them apart. */
  lemma SameRouteIff(x: BgpPath, y: BgpPath)
    ensures x.SameRouteAs(y) <==>
              && x.prefix == y.prefix && x.source == y.source && x.peerAddr == y.peerAddr && x.peerAs == y.peerAs
              && x.peerRouterId == y.peerRouterId && x.origin == y.origin && x.asPath == y.asPath && x.nextHop == y.nextHop
              && x.med == y.med && x.localPref == y.localPref && x.atomicAggregate == y.atomicAggregate
              && x.originatorId == y.originatorId && x.clusterList == y.clusterList && x.fromClient == y.fromClient
  {}

  /** A path this speaker originates itself. */
  function LocalPath(prefix: Prefix, nextHop: Address, routerId: Address): BgpPath {
    BgpPath(prefix, Local, UNSPECIFIED, 0, routerId, Igp, AsPath([]), nextHop, None,
            DEFAULT_LOCAL_PREF, false, None, [], false, 0)
  }

  /** One route as advertised to one peer. */
  datatype AdvertisedRoute = AdvertisedRoute(
    origin: Origin,
    asPath: AsPath,
    nextHop: Address,
    med: Option<U32>,
    localPref: Option<U32>,
    originatorId: Option<Address>,
    clusterList: seq<Address>
  )

  /** No value occurs twice. */
  ghost predicate NoDuplicates<T>(s: seq<T>) {
    forall i, j :: 0 <= i < j < |s| ==> s[i] != s[j]
  }

  /** A duplicate-free list is no longer than the set it draws from. */
  lemma {:induction false} DistinctBounded<T>(s: seq<T>, universe: set<T>)
    requires NoDuplicates(s)
    requires forall x :: x in s ==> x in universe
    ensures |s| <= |universe|
    decreases |s|
  {
    if s != [] {
      var last := s[|s| - 1];
      var init := s[..|s| - 1];
      forall x | x in init ensures x in universe - {last} {
        var i :| 0 <= i < |init| && init[i] == x;
        assert s[i] == x;
      }
      DistinctBounded(init, universe - {last});
    }
  }
}
