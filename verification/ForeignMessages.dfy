/**
 UPDATE messages as anybody may write them: the fixed header, the three fields of the body and
 the prefix lists. Numbers are those of RFC 4271 sections 4.1, 4.3, 6.1 and 6.3.
 */
module ForeignMessages {
  import opened BgpTypes
  import opened AsPathCodec
  import opened PrefixCodec
  import opened UpdateCodec
  import opened ForeignAttributes

  // ---------------------------------------------------------------- prefix lists

  function OctetAt(b: seq<U8>, i: nat): U8 {
    if i < |b| then b[i] else 0
  }

  /** The address whose leading octets these are. */
  function AddressIn(b: seq<U8>): int {
    (OctetAt(b, 1) as int) * 0x100_0000 + (OctetAt(b, 2) as int) * 0x1_0000 + (OctetAt(b, 3) as int) * 0x100 + OctetAt(b, 4)
  }

  /** A length and as many address octets as it needs; bits past the length do not matter. */
  ghost predicate SpellsPrefix(b: seq<U8>, p: Prefix) {
    && p.length <= 32 && |b| == 1 + (p.length + 7) / 8 && b[0] == p.length
    && p.address % Pow2(32 - p.length) == 0 && p.address <= AddressIn(b) < p.address + Pow2(32 - p.length)
  }

  ghost predicate SpellsPrefixes(b: seq<U8>, ps: seq<Prefix>) {
    if ps == [] then b == []
    else
      var end := 1 + (ps[0].length + 7) / 8;
      end <= |b| && SpellsPrefix(b[..end], ps[0]) && SpellsPrefixes(b[end..], ps[1..])
  }

  lemma Masked(a: Address, length: U8, m: Address)
    requires length <= 32
    ensures m == Mask(a, length) <==> m % Pow2(32 - length) == 0 && m <= a < m + Pow2(32 - length)
  {
    if length == 0 {
      MaskedAll(a, m);
    } else {
      assert Pow2(0) == 1;
      MultipleBelow(a, m, Pow2(32 - length));
    }
  }

  lemma MaskedAll(a: Address, m: Address)
    ensures m == 0 <==> m % Pow2(32) == 0 && m <= a < m + Pow2(32)
  {
    BytePowers();
  }

  lemma MultipleBelow(a: nat, m: nat, d: nat)
    requires 0 < d
    ensures (a - a % d) % d == 0
    ensures m == a - a % d <==> m % d == 0 && m <= a < m + d
  {
    assert a == d * (a / d) + a % d;
    MultipleOf(a / d, d);
    if m % d == 0 && m <= a < m + d {
      assert m == d * (m / d);
      SameQuotient(a / d, m / d, a % d, a - m, d);
    }
  }

  lemma MultipleOf(k: nat, d: nat)
    requires 0 < d
    ensures (d * k) % d == 0
  {
    var q, r := (d * k) / d, (d * k) % d;
    assert d * k == d * q + r;
    SameQuotient(k, q, 0, r, d);
  }

  lemma {:induction false} Apart(k: nat, l: nat, d: nat)
    ensures k < l ==> d * k + d <= d * l
    decreases l
  {
    if k < l {
      assert d * l == d * (l - 1) + d;
      Apart(k, l - 1, d);
    }
  }

  lemma SameQuotient(k: nat, l: nat, r: nat, q: nat, d: nat)
    requires d * k + r == d * l + q && r < d && q < d
    ensures k == l
  {
    Apart(k, l, d);
    Apart(l, k, d);
  }

  lemma PrefixSpelled(b: seq<U8>, p: Prefix)
    requires b != [] && b[0] <= 32 && |b| == 1 + Octets(b[0])
    ensures SpellsPrefix(b, p) <==> p == NewPrefix(From32(Padded(b[1..])), b[0])
  {
    var four := Padded(b[1..]);
    NumberDecoded(four);
    assert forall i :: 0 <= i < 4 ==> four[i] == OctetAt(b, i + 1);
    assert From32(four) == AddressIn(b);
    Masked(From32(four), b[0], p.address);
  }

  /** A prefix list is read exactly from the octets that spell it. */
  lemma {:induction false} PrefixesDecodedIff(b: seq<U8>, ps: seq<Prefix>)
    ensures DecodePrefixes(b) == Ok(ps) <==> SpellsPrefixes(b, ps)
    decreases |b|
  {
    if b != [] && ps != [] && b[0] <= 32 && 1 + Octets(b[0]) <= |b| {
      PrefixesDecodedIff(b[1 + Octets(b[0])..], ps[1..]);
      FrontPrefix(b, ps[0], ps[1..]);
      assert ps == [ps[0]] + ps[1..];
    }
  }

  lemma {:induction false} FrontPrefix(b: seq<U8>, p: Prefix, rest: seq<Prefix>)
    requires b != [] && b[0] <= 32 && 1 + Octets(b[0]) <= |b|
    requires var more := b[1 + Octets(b[0])..]; DecodePrefixes(more) == Ok(rest) <==> SpellsPrefixes(more, rest)
    ensures DecodePrefixes(b) == Ok([p] + rest) <==> SpellsPrefixes(b, [p] + rest)
  {
    var end := 1 + Octets(b[0]);
    PrefixSpelled(b[..end], p);
    assert b[..end][1..] == b[1..end];
    assert ([p] + rest)[1..] == rest;
    var r := DecodePrefixes(b);
    if r == Ok([p] + rest) {
      assert r.value[0] == p && r.value[1..] == rest;
    }
    if SpellsPrefixes(b, [p] + rest) {
      assert b[..1 + (p.length + 7) / 8][0] == b[0];
    }
  }

  lemma {:induction false} PrefixesFault(b: seq<U8>)
    ensures DecodePrefixes(b).Err? ==> DecodePrefixes(b).subcode == 10
    decreases |b|
  {
    if b != [] && b[0] <= 32 && 1 + Octets(b[0]) <= |b| {
      PrefixesFault(b[1 + Octets(b[0])..]);
    }
  }

  // --------------------------------------------------------------------- body

  /** A two-octet length. */
  function Count(n: nat): seq<U8>
    requires n < 0x1_0000
  {
    [n / 0x100, n % 0x100]
  }

  /** The three fields of a body: withdrawn prefixes, attributes, announced prefixes. */
  ghost predicate Fields(body: seq<U8>, w: seq<U8>, a: seq<U8>, n: seq<U8>) {
    |w| < 0x1_0000 && |a| < 0x1_0000 && body == Count(|w|) + w + (Count(|a|) + a + n)
  }

  lemma CountIsBe16(n: nat)
    requires n < 0x1_0000
    ensures Count(n) == Be16(n)
  {}

  lemma FieldsRead(body: seq<U8>, w: seq<U8>, a: seq<U8>, n: seq<U8>)
    requires Fields(body, w, a, n)
    ensures BodyFields(body) == Ok((w, Ok((a, n))))
  {
    CountIsBe16(|w|);
    CountIsBe16(|a|);
    assert body == Counted(w) + (Counted(a) + n);
    CountedFields(w, a, n);
  }

  lemma FieldsGiven(body: seq<U8>)
    requires BodyFields(body).Ok? && BodyFields(body).value.1.Ok?
    ensures var (a, n) := BodyFields(body).value.1.value; Fields(body, BodyFields(body).value.0, a, n)
  {
    var w := BodyFields(body).value.0;
    var start := 2 + |w| + 2;
    var (a, n) := BodyFields(body).value.1.value;
    assert body[..2] == Count(|w|) && body[2 + |w|..start] == Count(|a|);
    assert body == body[..2] + body[2..2 + |w|] + (body[2 + |w|..start] + body[start..start + |a|] + body[start + |a|..]);
  }

  /** The body spells these prefixes and attributes, all of them sound. */
  ghost predicate SpellsBody(body: seq<U8>, ws: seq<Prefix>, xs: seq<RawAttr>, ns: seq<Prefix>, four: bool) {
    exists w, a, n ::
      && Fields(body, w, a, n) && SpellsPrefixes(w, ws) && SpellsPrefixes(n, ns)
      && Spelling(a, xs) && Sound(xs, four)
  }

  /** What is read is what is spelled, unless a required attribute is lacking. */
  lemma BodyIsRead(body: seq<U8>, ws: seq<Prefix>, xs: seq<RawAttr>, ns: seq<Prefix>, four: bool)
    requires SpellsBody(body, ws, xs, ns, four)
    ensures var r := ParseBody(body, four);
            if Lacking(Codes(xs), ns) then r == Err(3)
            else
              && r.Ok? && r.value.withdrawn == ws && r.value.nlri == ns
              && (r.value.attributes.Some? <==> ns != [] || 14 in Codes(xs) || 15 in Codes(xs))
              && (r.value.attributes.Some? ==> exists p :: Records(p, xs, four) && Completes(r.value.attributes.value, p))
  {
    var w, a, n :| Fields(body, w, a, n) && SpellsPrefixes(w, ws) && SpellsPrefixes(n, ns) && Spelling(a, xs) && Sound(xs, four);
    FieldsRead(body, w, a, n);
    PrefixesDecodedIff(w, ws);
    PrefixesDecodedIff(n, ns);
    MissingIff(ws, xs, n, ns, four);
  }

  lemma AcceptedBody(body: seq<U8>, four: bool)
    requires ParseBody(body, four).Ok?
    ensures exists ws, xs, ns :: SpellsBody(body, ws, xs, ns, four) && !Lacking(Codes(xs), ns)
  {
    FieldsGiven(body);
    var w := BodyFields(body).value.0;
    var (a, n) := BodyFields(body).value.1.value;
    var ws, ns := DecodePrefixes(w).value, DecodePrefixes(n).value;
    PrefixesDecodedIff(w, ws);
    PrefixesDecodedIff(n, ns);
    AcceptedIff(a, four);
    var xs :| Spelling(a, xs) && Sound(xs, four);
    MissingIff(ws, xs, n, ns, four);
    assert SpellsBody(body, ws, xs, ns, four);
  }

  /**
   A body is accepted exactly when its three fields spell prefixes, sound attributes and
   prefixes, and nothing that is required is lacking.
   */
  lemma BodyIff(body: seq<U8>, four: bool)
    ensures ParseBody(body, four).Ok? <==>
            exists ws, xs, ns :: SpellsBody(body, ws, xs, ns, four) && !Lacking(Codes(xs), ns)
  {
    if ParseBody(body, four).Ok? {
      AcceptedBody(body, four);
    }
    if ws, xs, ns :| SpellsBody(body, ws, xs, ns, four) && !Lacking(Codes(xs), ns) {
      BodyIsRead(body, ws, xs, ns, four);
    }
  }

  // ------------------------------------------------------------------- header

  function LeastLength(code: U8): nat {
    match code
    case 1 => 29
    case 2 => 23
    case 3 => 21
    case _ => 19
  }

  /** Which frames are messages at all; everything else is answered with a header error. */
  ghost predicate GoodHeader(frame: seq<U8>) {
    && |frame| >= 19 && (forall i :: 0 <= i < 16 ==> frame[i] == 0xFF)
    && (frame[16] as int) * 0x100 + frame[17] == |frame| <= 4096
    && 1 <= frame[18] <= 5 && |frame| >= LeastLength(frame[18])
  }

  lemma MessageIff(frame: seq<U8>, four: bool)
    ensures var r := ParseMessage(frame, four);
            && (r.HeaderError? <==> !GoodHeader(frame))
            && (r == HeaderError(1) <==> |frame| >= 19 && exists i :: 0 <= i < 16 && frame[i] != 0xFF)
            && (r == HeaderError(3) ==> frame[18] !in {1, 2, 3, 4, 5})
            && (r.UpdateBody? <==> GoodHeader(frame) && frame[18] == 2)
            && (r.UpdateBody? ==> r.result == ParseBody(frame[19..], four))
            && (r.OtherMessage? ==> r.code == frame[18] && r.body == frame[19..])
  {
    if |frame| >= 19 {
      assert frame[..16] == MARKER <==> forall i :: 0 <= i < 16 ==> frame[i] == 0xFF by {
        if frame[..16] == MARKER {
          forall i | 0 <= i < 16 ensures frame[i] == 0xFF { assert frame[i] == frame[..16][i]; }
        }
      }
    }
  }
}
