/**
 The capability lists of two OPEN messages: their encoding, and that both ends of a
 session come to the same agreement about it.
 */
module Capabilities {
  import opened BgpTypes
  import opened AsPathCodec

  const PARAM_CAPABILITY: U8 := 2
  const CAP_MULTIPROTOCOL: U8 := 1
  const CAP_ROUTE_REFRESH: U8 := 2
  const CAP_GRACEFUL_RESTART: U8 := 64
  const CAP_FOUR_OCTET_AS: U8 := 65
  const CAP_ENHANCED_REFRESH: U8 := 70
  const MAX_CAPABILITIES: nat := 64
  const SUB_OPT_PARAM: U8 := 4

  datatype Capability =
    | MultiProtocol(family: Family)
    | FourOctetAs(asn: U32)
    | RouteRefresh
    | EnhancedRouteRefresh
    | GracefulRestart(restarting: bool, restartTime: U16, families: seq<GrFamily>)
    | Unknown(code: U8, value: seq<U8>)

  // ------------------------------------------------------------------- encoding

  function CodeOf(c: Capability): U8 {
    match c
    case MultiProtocol(_) => CAP_MULTIPROTOCOL
    case FourOctetAs(_) => CAP_FOUR_OCTET_AS
    case RouteRefresh => CAP_ROUTE_REFRESH
    case EnhancedRouteRefresh => CAP_ENHANCED_REFRESH
    case GracefulRestart(_, _, _) => CAP_GRACEFUL_RESTART
    case Unknown(code, _) => code
  }

  function EncodeGrFamily(f: GrFamily): (r: seq<U8>)
    ensures |r| == 4
  {
    Be16(f.family.afi) + [f.family.safi, if f.forwarding then 0x80 else 0]
  }

  function EncodeGrFamilies(fs: seq<GrFamily>): seq<U8> {
    if fs == [] then [] else EncodeGrFamily(fs[0]) + EncodeGrFamilies(fs[1..])
  }

  function GrWord(restarting: bool, time: U16): U16 {
    time % 0x1000 + if restarting then 0x8000 else 0
  }

  function ValueOf(c: Capability): seq<U8> {
    match c
    case MultiProtocol(f) => Be16(f.afi) + [0, f.safi]
    case FourOctetAs(asn) => Be32(asn)
    case RouteRefresh => []
    case EnhancedRouteRefresh => []
    case GracefulRestart(restarting, time, fs) => Be16(GrWord(restarting, time)) + EncodeGrFamilies(fs)
    case Unknown(_, value) => value
  }

  function EncodeOne(c: Capability): seq<U8> {
    [CodeOf(c), |ValueOf(c)| % 0x100] + ValueOf(c)
  }

  function EncodeCaps(cs: seq<Capability>): seq<U8> {
    if cs == [] then [] else EncodeOne(cs[0]) + EncodeCaps(cs[1..])
  }

  /** All capabilities in one parameter; nothing at all for an empty list. */
  function EncodeParams(cs: seq<Capability>): seq<U8> {
    if cs == [] then [] else [PARAM_CAPABILITY, |EncodeCaps(cs)| % 0x100] + EncodeCaps(cs)
  }

  // ------------------------------------------------------------------- decoding

  /** Appends unless it is already there. */
  function Push<T(==)>(xs: seq<T>, x: T): seq<T> {
    if x in xs then xs else xs + [x]
  }

  function DecodeGrFamilies(b: seq<U8>, have: seq<GrFamily>): seq<GrFamily>
    requires |b| % 4 == 0
    decreases |b|
  {
    if b == [] then have
    else DecodeGrFamilies(b[4..], Push(have, GrFamily(Family(From16(b[..2]), b[2]), b[3] / 0x80 == 1)))
  }

  function DecodeGr(v: seq<U8>): Result<Capability> {
    if |v| < 2 || (|v| - 2) % 4 != 0 then Err(SUB_OPT_PARAM)
    else
      var word := From16(v[..2]);
      Ok(GracefulRestart(word / 0x8000 == 1, word % 0x1000, DecodeGrFamilies(v[2..], [])))
  }

  /** A known code with the wrong length is an error, an unknown code never is. */
  function DecodeOne(code: U8, v: seq<U8>): Result<Capability> {
    if code == CAP_MULTIPROTOCOL then
      if |v| != 4 then Err(SUB_OPT_PARAM) else Ok(MultiProtocol(Family(From16(v[..2]), v[3])))
    else if code == CAP_FOUR_OCTET_AS then
      if |v| != 4 then Err(SUB_OPT_PARAM) else Ok(FourOctetAs(From32(v)))
    else if code == CAP_ROUTE_REFRESH then
      if v != [] then Err(SUB_OPT_PARAM) else Ok(RouteRefresh)
    else if code == CAP_ENHANCED_REFRESH then
      if v != [] then Err(SUB_OPT_PARAM) else Ok(EnhancedRouteRefresh)
    else if code == CAP_GRACEFUL_RESTART then DecodeGr(v)
    else Ok(Unknown(code, v))
  }

  function ParseBlock(b: seq<U8>, have: seq<Capability>): Result<seq<Capability>>
    decreases |b|
  {
    if b == [] then Ok(have)
    else if |b| < 2 || |b| < 2 + (b[1] as int) || |have| >= MAX_CAPABILITIES then Err(SUB_OPT_PARAM)
    else
      var c :- DecodeOne(b[0], b[2..2 + (b[1] as int)]);
      ParseBlock(b[2 + (b[1] as int)..], Push(have, c))
  }

  /** Parameters of another type are skipped. */
  function ParseParams(b: seq<U8>, have: seq<Capability>): Result<seq<Capability>>
    decreases |b|
  {
    if b == [] then Ok(have)
    else if |b| < 2 || |b| < 2 + (b[1] as int) then Err(SUB_OPT_PARAM)
    else
      var next :- if b[0] == PARAM_CAPABILITY then ParseBlock(b[2..2 + (b[1] as int)], have) else Ok(have);
      ParseParams(b[2 + (b[1] as int)..], next)
  }

  // ----------------------------------------------------------------- round trip

  predicate Known(code: U8) {
    code in {CAP_MULTIPROTOCOL, CAP_ROUTE_REFRESH, CAP_GRACEFUL_RESTART, CAP_FOUR_OCTET_AS, CAP_ENHANCED_REFRESH}
  }

  /** What the speaker's own constructors produce. */
  ghost predicate WellFormed(c: Capability) {
    && |ValueOf(c)| < 0x100
    && (c.GracefulRestart? ==> c.restartTime < 0x1000 && NoDuplicates(c.families))
    && (c.Unknown? ==> !Known(c.code))
  }

  ghost predicate AllWellFormed(cs: seq<Capability>) {
    forall i :: 0 <= i < |cs| ==> WellFormed(cs[i])
  }

  lemma FirstIsNew<T>(have: seq<T>, xs: seq<T>)
    requires NoDuplicates(have + xs) && xs != []
    ensures xs[0] !in have
  {
    forall j | 0 <= j < |have| ensures have[j] != xs[0] {
      assert (have + xs)[j] == have[j] && (have + xs)[|have|] == xs[0];
    }
  }

  lemma GrFamilyRoundTrip(f: GrFamily, rest: seq<U8>)
    ensures var b := EncodeGrFamily(f) + rest;
            b[4..] == rest && GrFamily(Family(From16(b[..2]), b[2]), b[3] / 0x80 == 1) == f
  {
    var b := EncodeGrFamily(f) + rest;
    assert b[..2] == Be16(f.family.afi);
    Be16RoundTrip(f.family.afi);
  }

  lemma {:induction false} GrFamiliesRoundTrip(fs: seq<GrFamily>, have: seq<GrFamily>)
    requires NoDuplicates(have + fs)
    ensures |EncodeGrFamilies(fs)| % 4 == 0 && DecodeGrFamilies(EncodeGrFamilies(fs), have) == have + fs
    decreases |fs|
  {
    if fs == [] {
      assert have + fs == have;
    } else {
      FirstIsNew(have, fs);
      assert have + [fs[0]] + fs[1..] == have + fs;
      GrFamiliesRoundTrip(fs[1..], have + [fs[0]]);
      GrFamilyRoundTrip(fs[0], EncodeGrFamilies(fs[1..]));
    }
  }

  lemma GrRoundTrip(c: Capability)
    requires c.GracefulRestart? && WellFormed(c)
    ensures DecodeGr(ValueOf(c)) == Ok(c)
  {
    var v, word := ValueOf(c), GrWord(c.restarting, c.restartTime);
    assert v[..2] == Be16(word) && v[2..] == EncodeGrFamilies(c.families);
    Be16RoundTrip(word);
    assert [] + c.families == c.families;
    GrFamiliesRoundTrip(c.families, []);
  }

  lemma OneRoundTrip(c: Capability)
    requires WellFormed(c)
    ensures DecodeOne(CodeOf(c), ValueOf(c)) == Ok(c)
  {
    match c
    case MultiProtocol(f) =>
      assert ValueOf(c)[..2] == Be16(f.afi);
      Be16RoundTrip(f.afi);
    case FourOctetAs(asn) => Be32RoundTrip(asn);
    case GracefulRestart(_, _, _) => GrRoundTrip(c);
    case _ =>
  }

  lemma FrontOfBlock(c: Capability, rest: seq<U8>)
    requires WellFormed(c)
    ensures var b := EncodeOne(c) + rest;
            && |b| >= 2 + |ValueOf(c)| && b[0] == CodeOf(c) && b[1] == |ValueOf(c)|
            && b[2..2 + |ValueOf(c)|] == ValueOf(c) && b[2 + |ValueOf(c)|..] == rest
  {}

  /** A list of distinct capabilities is read back exactly when it does not exceed the decoder's ceiling. */
  lemma {:induction false} BlockRoundTripIff(cs: seq<Capability>, have: seq<Capability>)
    requires AllWellFormed(cs) && NoDuplicates(have + cs) && |have| <= MAX_CAPABILITIES
    ensures ParseBlock(EncodeCaps(cs), have) == (if |have| + |cs| <= 64 then Ok(have + cs) else Err(SUB_OPT_PARAM))
    decreases |cs|
  {
    if cs == [] {
      assert have + cs == have;
    } else {
      FrontOfBlock(cs[0], EncodeCaps(cs[1..]));
      OneRoundTrip(cs[0]);
      if |have| < MAX_CAPABILITIES {
        FirstIsNew(have, cs);
        assert have + [cs[0]] + cs[1..] == have + cs;
        BlockRoundTripIff(cs[1..], have + [cs[0]]);
      }
    }
  }

  ghost predicate Sendable(cs: seq<Capability>) {
    AllWellFormed(cs) && NoDuplicates(cs) && |cs| <= MAX_CAPABILITIES && |EncodeCaps(cs)| < 0x100
  }

  lemma OneParameter(block: seq<U8>)
    requires |block| < 0x100
    ensures ParseParams([PARAM_CAPABILITY, |block|] + block, []) == ParseBlock(block, [])
  {
    var b := [PARAM_CAPABILITY, |block|] + block;
    assert b[0] == PARAM_CAPABILITY && b[1] == |block|;
    assert b[2..2 + |block|] == block && b[2 + |block|..] == [];
    assert forall cs :: ParseParams([], cs) == Ok(cs);
  }

  lemma BlockParses(cs: seq<Capability>)
    requires AllWellFormed(cs) && NoDuplicates(cs)
    ensures ParseBlock(EncodeCaps(cs), []) == if |cs| <= 64 then Ok(cs) else Err(SUB_OPT_PARAM)
  {
    assert [] + cs == cs;
    BlockRoundTripIff(cs, []);
  }

  lemma ParamsAre(cs: seq<Capability>, block: seq<U8>)
    requires cs != [] && block == EncodeCaps(cs) && |block| < 0x100
    ensures EncodeParams(cs) == [PARAM_CAPABILITY, |block|] + block
  {}

  /** A list of distinct capabilities that fits its parameter survives exactly when there are at most 64. */
  lemma ParamsRoundTripIff(cs: seq<Capability>)
    requires AllWellFormed(cs) && NoDuplicates(cs) && |EncodeCaps(cs)| < 0x100
    ensures ParseParams(EncodeParams(cs), []) == if |cs| <= 64 then Ok(cs) else Err(SUB_OPT_PARAM)
  {
    if cs != [] {
      BlockParses(cs);
      ParamsAre(cs, EncodeCaps(cs));
      OneParameter(EncodeCaps(cs));
    }
  }

  /** An OPEN's capability list survives encoding and parsing. */
  lemma ParamsRoundTrip(cs: seq<Capability>)
    requires Sendable(cs)
    ensures ParseParams(EncodeParams(cs), []) == Ok(cs)
  {
    ParamsRoundTripIff(cs);
  }

  function Unknowns(n: nat): seq<Capability>
    requires n <= 65
  {
    seq(n, i requires 0 <= i < n => Unknown(100 + i, []))
  }

  lemma {:induction false} EmptyValues(cs: seq<Capability>)
    requires forall i :: 0 <= i < |cs| ==> ValueOf(cs[i]) == []
    ensures |EncodeCaps(cs)| == 2 * |cs|
    decreases |cs|
  {
    if cs != [] {
      EmptyValues(cs[1..]);
    }
  }

  /** 65 distinct capabilities without a value take 130 octets, fit one parameter, and are refused. */
  lemma SixtyFiveAreRefused()
    ensures var cs := Unknowns(65);
            && |cs| == 65 && AllWellFormed(cs) && NoDuplicates(cs) && |EncodeCaps(cs)| == 130
            && ParseParams(EncodeParams(cs), []) == Err(SUB_OPT_PARAM)
  {
    var cs := Unknowns(65);
    forall i | 0 <= i < |cs| ensures cs[i] == Unknown(100 + i, []) && ValueOf(cs[i]) == [] && WellFormed(cs[i]) {}
    EmptyValues(cs);
    ParamsRoundTripIff(cs);
  }

  // ---------------------------------------------------------------- negotiation

  datatype Negotiated = Negotiated(families: set<Family>, fourOctetAs: bool, routeRefresh: bool, enhancedRefresh: bool, peer: seq<Capability>)

  function Families(cs: seq<Capability>): set<Family> {
    set i | 0 <= i < |cs| && cs[i].MultiProtocol? :: cs[i].family
  }

  /** No Multiprotocol capability at all means IPv4 unicast. */
  function FamiliesWithDefault(cs: seq<Capability>): set<Family> {
    if Families(cs) == {} then {IPV4_UNICAST} else Families(cs)
  }

  predicate SupportsFourOctetAs(cs: seq<Capability>) {
    exists i :: 0 <= i < |cs| && cs[i].FourOctetAs?
  }

  function Negotiate(local: seq<Capability>, peer: seq<Capability>): Negotiated {
    var refresh := RouteRefresh in local && RouteRefresh in peer;
    Negotiated(FamiliesWithDefault(local) * FamiliesWithDefault(peer),
               SupportsFourOctetAs(local) && SupportsFourOctetAs(peer),
               refresh,
               refresh && EnhancedRouteRefresh in local && EnhancedRouteRefresh in peer,
               peer)
  }

  /**
   After exchanging OPENs both ends hold the same agreement: the same families, the same
   AS number width, the same refresh procedures, each with the other's own list beside it.
   */
  lemma BothEndsAgree(a: seq<Capability>, b: seq<Capability>)
    requires Sendable(a) && Sendable(b)
    ensures var atA, atB := ParseParams(EncodeParams(b), []), ParseParams(EncodeParams(a), []);
            && atA.Ok? && atB.Ok?
            && Negotiate(a, atA.value).(peer := []) == Negotiate(b, atB.value).(peer := [])
            && Negotiate(a, atA.value).peer == b && Negotiate(b, atB.value).peer == a
  {
    ParamsRoundTrip(a);
    ParamsRoundTrip(b);
    assert FamiliesWithDefault(a) * FamiliesWithDefault(b) == FamiliesWithDefault(b) * FamiliesWithDefault(a);
  }

  /** A list that names no family at all speaks for IPv4 unicast. */
  ghost predicate Offers(cs: seq<Capability>, f: Family) {
    MultiProtocol(f) in cs || (f == Family(1, 1) && forall g :: MultiProtocol(g) !in cs)
  }

  ghost predicate OffersFourOctets(cs: seq<Capability>) {
    exists asn :: FourOctetAs(asn) in cs
  }

  lemma FamiliesOffered(cs: seq<Capability>, f: Family)
    ensures f in FamiliesWithDefault(cs) <==> Offers(cs, f)
  {
    forall g ensures g in Families(cs) <==> MultiProtocol(g) in cs {
      if MultiProtocol(g) in cs {
        var i :| 0 <= i < |cs| && cs[i] == MultiProtocol(g);
        assert cs[i].family in Families(cs);
      }
    }
    if Families(cs) != {} {
      var g :| g in Families(cs);
    }
  }

  lemma FourOctetsOffered(cs: seq<Capability>)
    ensures SupportsFourOctetAs(cs) <==> OffersFourOctets(cs)
  {
    if i :| 0 <= i < |cs| && cs[i].FourOctetAs? {
      assert FourOctetAs(cs[i].asn) in cs;
    }
  }

  /** What is agreed on is exactly what both lists offer; the enhanced refresh procedures need the plain ones. */
  lemma AgreedIffOffered(a: seq<Capability>, b: seq<Capability>)
    ensures var n := Negotiate(a, b);
            && (forall f :: f in n.families <==> Offers(a, f) && Offers(b, f))
            && (n.fourOctetAs <==> OffersFourOctets(a) && OffersFourOctets(b))
            && (n.routeRefresh <==> RouteRefresh in a && RouteRefresh in b)
            && (n.enhancedRefresh <==> n.routeRefresh && EnhancedRouteRefresh in a && EnhancedRouteRefresh in b)
  {
    FourOctetsOffered(a);
    FourOctetsOffered(b);
    forall f ensures f in Negotiate(a, b).families <==> Offers(a, f) && Offers(b, f) {
      FamiliesOffered(a, f);
      FamiliesOffered(b, f);
    }
  }

  // ------------------------------------------------ capabilities of anybody's

  /** The value octets of a capability, code by code (RFC 5492, 4760, 6793, 2918, 7313, 4724); bits a reader skips are free. */
  ghost predicate Says(code: U8, v: seq<U8>, c: Capability) {
    match c
    case MultiProtocol(f) => code == 1 && |v| == 4 && f.afi == (v[0] as int) * 0x100 + v[1] && f.safi == v[3]
    case FourOctetAs(asn) =>
      code == 65 && |v| == 4 && asn == (v[0] as int) * 0x100_0000 + (v[1] as int) * 0x1_0000 + (v[2] as int) * 0x100 + v[3]
    case RouteRefresh => code == 2 && v == []
    case EnhancedRouteRefresh => code == 70 && v == []
    case GracefulRestart(restarting, time, fs) =>
      && code == 64 && |v| >= 2 && (|v| - 2) % 4 == 0
      && (restarting <==> v[0] >= 0x80) && time == (v[0] as int) % 0x10 * 0x100 + v[1] && NoDuplicates(fs)
      && (forall f :: f in fs <==> Names(v, 2, (|v| - 2) / 4, f))
    case Unknown(other, value) => code !in {1, 2, 64, 65, 70} && other == code && value == v
  }

  predicate SaysFamily(v: seq<U8>, at: nat, f: GrFamily) {
    && at + 4 <= |v| && f.family.afi == (v[at] as int) * 0x100 + v[at + 1] && f.family.safi == v[at + 2]
    && (f.forwarding <==> v[at + 3] >= 0x80)
  }

  /** One of `n` families written from `start` on. */
  ghost predicate Names(v: seq<U8>, start: nat, n: nat, f: GrFamily) {
    exists i :: 0 <= i < n && SaysFamily(v, start + 4 * i, f)
  }

  /** A value that is not as long as its code demands. */
  predicate WrongLength(code: U8, v: seq<U8>) {
    || (code in {1, 65} && |v| != 4)
    || (code in {2, 70} && v != [])
    || (code == 64 && (|v| < 2 || (|v| - 2) % 4 != 0))
  }

  lemma PushAdds<T>(xs: seq<T>, x: T)
    requires NoDuplicates(xs)
    ensures NoDuplicates(Push(xs, x)) && forall y :: y in Push(xs, x) <==> y in xs || y == x
  {}

  lemma {:induction false} GrFamiliesRead(b: seq<U8>, have: seq<GrFamily>)
    requires |b| % 4 == 0 && NoDuplicates(have)
    ensures var fs := DecodeGrFamilies(b, have);
            NoDuplicates(fs) && forall f :: f in fs <==> f in have || Names(b, 0, |b| / 4, f)
    decreases |b|
  {
    if b != [] {
      var x := GrFamily(Family(From16(b[..2]), b[2]), b[3] / 0x80 == 1);
      PushAdds(have, x);
      GrFamiliesRead(b[4..], Push(have, x));
      forall f ensures Names(b, 0, |b| / 4, f) <==> f == x || Names(b[4..], 0, |b[4..]| / 4, f) {
        SaysInRest(b, f, x);
      }
    }
  }

  lemma SaysInRest(b: seq<U8>, f: GrFamily, x: GrFamily)
    requires |b| >= 4 && |b| % 4 == 0 && x == GrFamily(Family(From16(b[..2]), b[2]), b[3] / 0x80 == 1)
    ensures Names(b, 0, |b| / 4, f) <==> f == x || Names(b[4..], 0, |b[4..]| / 4, f)
  {
    assert SaysFamily(b, 0 + 4 * 0, f) <==> f == x;
    if Names(b, 0, |b| / 4, f) {
      var i :| 0 <= i < |b| / 4 && SaysFamily(b, 0 + 4 * i, f);
      if i > 0 {
        assert SaysFamily(b[4..], 0 + 4 * (i - 1), f);
      }
    }
    if Names(b[4..], 0, |b[4..]| / 4, f) {
      var i :| 0 <= i < |b[4..]| / 4 && SaysFamily(b[4..], 0 + 4 * i, f);
      assert SaysFamily(b, 0 + 4 * (i + 1), f);
    }
  }

  lemma NamedInTail(v: seq<U8>, b: seq<U8>, f: GrFamily)
    requires |v| >= 2 && (|v| - 2) % 4 == 0 && b == v[2..]
    ensures Names(b, 0, |b| / 4, f) <==> Names(v, 2, (|v| - 2) / 4, f)
  {
    if Names(b, 0, |b| / 4, f) {
      var i :| 0 <= i < |b| / 4 && SaysFamily(b, 0 + 4 * i, f);
      assert SaysFamily(v, 2 + 4 * i, f);
    }
    if Names(v, 2, (|v| - 2) / 4, f) {
      var i :| 0 <= i < (|v| - 2) / 4 && SaysFamily(v, 2 + 4 * i, f);
      assert SaysFamily(b, 0 + 4 * i, f);
    }
  }

  lemma RestartWord(v: seq<U8>)
    requires |v| >= 2
    ensures var word := From16(v[..2]); (word / 0x8000 == 1 <==> v[0] >= 0x80) && word % 0x1000 == (v[0] as int) % 0x10 * 0x100 + v[1]
  {}

  lemma GrSaid(v: seq<U8>)
    requires |v| >= 2 && (|v| - 2) % 4 == 0
    ensures DecodeGr(v).Ok? && DecodeGr(v).value.GracefulRestart? && Says(64, v, DecodeGr(v).value)
  {
    var b := v[2..];
    RestartWord(v);
    GrFamiliesRead(b, []);
    forall f ensures Names(b, 0, |b| / 4, f) <==> Names(v, 2, (|v| - 2) / 4, f) {
      NamedInTail(v, b, f);
    }
  }

  /** Whoever wrote it, a capability is read as what its octets say, and refused exactly when a known one has the wrong length. */
  lemma ReadIffRightLength(code: U8, v: seq<U8>)
    ensures var r := DecodeOne(code, v);
            if WrongLength(code, v) then r == Err(4) else r.Ok? && Says(code, v, r.value)
  {
    if code == 64 && !WrongLength(code, v) {
      GrSaid(v);
    }
  }

  /** What this speaker writes says what it means, to any reader. */
  lemma WrittenAsMeant(c: Capability)
    requires WellFormed(c)
    ensures Says(CodeOf(c), ValueOf(c), c)
  {
    OneRoundTrip(c);
    ReadIffRightLength(CodeOf(c), ValueOf(c));
  }

  /** Parameters of other types are passed over. */
  lemma OtherParametersAreSkipped(kind: U8, body: seq<U8>, rest: seq<U8>, have: seq<Capability>)
    requires |body| < 0x100 && kind != 2
    ensures ParseParams([kind, |body|] + body + rest, have) == ParseParams(rest, have)
  {
    var b := [kind, |body|] + body + rest;
    assert b[0] == kind && b[1] == |body| && b[2 + (b[1] as int)..] == rest;
  }

  // -------------------------------------------------------------------- the loops

  lemma {:induction false} EncodeCapsSnoc(cs: seq<Capability>, c: Capability)
    ensures EncodeCaps(cs + [c]) == EncodeCaps(cs) + EncodeOne(c)
    decreases |cs|
  {
    if cs == [] {
      assert cs + [c] == [c] && [c][1..] == [];
      assert EncodeCaps([c]) == EncodeOne(c) + [];
    } else {
      EncodeCapsSnoc(cs[1..], c);
      assert (cs + [c])[1..] == cs[1..] + [c];
      Associative(EncodeOne(cs[0]), EncodeCaps(cs[1..]), EncodeOne(c));
    }
  }

  method EncodeOptParams(cs: seq<Capability>) returns (out: seq<U8>)
    ensures out == EncodeParams(cs)
  {
    if cs == [] {
      return [];
    }
    var caps := [];
    for i := 0 to |cs|
      invariant caps == EncodeCaps(cs[..i])
    {
      EncodeCapsSnoc(cs[..i], cs[i]);
      assert cs[..i + 1] == cs[..i] + [cs[i]];
      caps := caps + EncodeOne(cs[i]);
    }
    assert cs[..|cs|] == cs;
    out := [PARAM_CAPABILITY, |caps| % 0x100] + caps;
  }

  method ParseCapabilityBlock(data: seq<U8>, have: seq<Capability>) returns (r: Result<seq<Capability>>)
    ensures r == ParseBlock(data, have)
  {
    var caps := have;
    var i := 0;
    assert data[0..] == data;
    while i < |data|
      invariant 0 <= i <= |data| && ParseBlock(data, have) == ParseBlock(data[i..], caps)
      decreases |data| - i
    {
      if i + 2 > |data| || i + 2 + (data[i + 1] as int) > |data| || |caps| >= MAX_CAPABILITIES {
        return Err(SUB_OPT_PARAM);
      }
      var end := i + 2 + (data[i + 1] as int);
      Slices(data, i, 2, end);
      var c := DecodeOne(data[i], data[i + 2..end]);
      if c.Err? {
        return Err(c.subcode);
      }
      caps, i := Push(caps, c.value), end;
    }
    assert data[i..] == [];
    return Ok(caps);
  }

  method ParseOptParams(data: seq<U8>) returns (r: Result<seq<Capability>>)
    ensures r == ParseParams(data, [])
  {
    var caps: seq<Capability> := [];
    var i := 0;
    assert data[0..] == data;
    while i < |data|
      invariant 0 <= i <= |data| && ParseParams(data, []) == ParseParams(data[i..], caps)
      decreases |data| - i
    {
      if i + 2 > |data| || i + 2 + (data[i + 1] as int) > |data| {
        return Err(SUB_OPT_PARAM);
      }
      var end := i + 2 + (data[i + 1] as int);
      Slices(data, i, 2, end);
      if data[i] == PARAM_CAPABILITY {
        var block := ParseCapabilityBlock(data[i + 2..end], caps);
        if block.Err? {
          return block;
        }
        caps := block.value;
      }
      i := end;
    }
    assert data[i..] == [];
    return Ok(caps);
  }
}
