/**
 IPv4 prefix lists on the wire: one length octet and as many address octets as the
 length needs, host bits always cleared.
 */
module PrefixCodec {
  import opened BgpTypes
  import opened AsPathCodec

  const SUB_INVALID_NETWORK_FIELD: U8 := 10

  function Pow2(n: nat): (r: nat)
    ensures r > 0
  {
    if n == 0 then 1 else 2 * Pow2(n - 1)
  }

  lemma {:induction false} Pow2Add(m: nat, n: nat)
    ensures Pow2(m + n) == Pow2(m) * Pow2(n)
    decreases m
  {
    if m > 0 {
      Pow2Add(m - 1, n);
      assert Pow2(m) * Pow2(n) == 2 * (Pow2(m - 1) * Pow2(n));
    }
  }

  /** The address with everything below the first `length` bits cleared. */
  function Mask(a: Address, length: U8): Address {
    if length == 0 then 0
    else if length >= 32 then a
    else a - a % Pow2(32 - length)
  }

  function NewPrefix(a: Address, length: U8): Prefix {
    var n: U8 := if length > 32 then 32 else length;
    Prefix(Mask(a, n), n)
  }

  /** Every prefix the speaker holds was built by `NewPrefix`. */
  predicate Canonical(p: Prefix) {
    p.length <= 32 && Mask(p.address, p.length) == p.address
  }

  function Octets(length: U8): nat {
    (length + 7) / 8
  }

  function EncodePrefix(p: Prefix): seq<U8>
    requires p.length <= 32
  {
    [p.length] + Be32(p.address)[..Octets(p.length)]
  }

  predicate AllCanonical(ps: seq<Prefix>) {
    forall i :: 0 <= i < |ps| ==> Canonical(ps[i])
  }

  function EncodePrefixes(ps: seq<Prefix>): seq<U8>
    requires AllCanonical(ps)
  {
    if ps == [] then [] else EncodePrefix(ps[0]) + EncodePrefixes(ps[1..])
  }

  function Padded(b: seq<U8>): (r: seq<U8>)
    requires |b| <= 4
    ensures |r| == 4
  {
    b + seq(4 - |b|, i => 0)
  }

  function DecodePrefixes(data: seq<U8>): Result<seq<Prefix>>
    decreases |data|
  {
    if data == [] then Ok([])
    else if data[0] > 32 then Err(SUB_INVALID_NETWORK_FIELD)
    else
      var end := 1 + Octets(data[0]);
      if end > |data| then Err(SUB_INVALID_NETWORK_FIELD)
      else
        var rest :- DecodePrefixes(data[end..]);
        Ok([NewPrefix(From32(Padded(data[1..end])), data[0])] + rest)
  }

  lemma LowOctets(a: Address)
    ensures a % 0x100 == Be32(a)[3]
    ensures a % 0x1_0000 == (Be32(a)[2] as int) * 0x100 + Be32(a)[3]
    ensures a % 0x100_0000 == (Be32(a)[1] as int) * 0x1_0000 + (Be32(a)[2] as int) * 0x100 + Be32(a)[3]
  {}

  /** Octets beyond the prefix length are zero, so padding restores them. */
  lemma PaddingRestores(a: Address, octets: nat)
    requires octets <= 4 && a % Pow2(32 - 8 * octets) == 0
    ensures Padded(Be32(a)[..octets]) == Be32(a)
  {
    BytePowers();
    LowOctets(a);
    var b := Be32(a);
    assert forall i :: octets <= i < 4 ==> b[i] == 0;
    assert Padded(b[..octets]) == b;
  }

  lemma BytePowers()
    ensures Pow2(0) == 1 && Pow2(8) == 0x100 && Pow2(16) == 0x1_0000 && Pow2(24) == 0x100_0000
    ensures Pow2(32) == 0x1_0000_0000
  {
    assert Pow2(4) == 16;
    Pow2Add(4, 4);
    Pow2Add(8, 8);
    Pow2Add(8, 16);
    Pow2Add(16, 16);
  }

  lemma MulAssociative(x: nat, y: nat, z: nat)
    ensures (x * y) * z == x * (y * z)
  {}

  lemma AsMultiple(a: nat, d: nat)
    requires d > 0 && a % d == 0
    ensures a == d * (a / d)
  {}

  lemma MultipleOfPower(m: nat, t: nat)
    requires m == 0 || m == 8 || m == 16 || m == 24
    ensures (Pow2(m) * t) % Pow2(m) == 0
  {
    BytePowers();
    if m == 0 {
      assert (1 * t) % 1 == 0;
    } else if m == 8 {
      assert (0x100 * t) % 0x100 == 0;
    } else if m == 16 {
      assert (0x1_0000 * t) % 0x1_0000 == 0;
    } else {
      assert (0x100_0000 * t) % 0x100_0000 == 0;
    }
  }

  lemma CoarserModulus(a: nat, m: nat, n: nat)
    requires m == 0 || m == 8 || m == 16 || m == 24
    requires a % Pow2(m + n) == 0
    ensures a % Pow2(m) == 0
  {
    var q := a / Pow2(m + n);
    calc {
      a;
      { AsMultiple(a, Pow2(m + n)); }
      Pow2(m + n) * q;
      { Pow2Add(m, n); }
      (Pow2(m) * Pow2(n)) * q;
      { MulAssociative(Pow2(m), Pow2(n), q); }
      Pow2(m) * (Pow2(n) * q);
    }
    MultipleOfPower(m, Pow2(n) * q);
  }

  lemma PrefixRoundTrip(p: Prefix)
    requires Canonical(p)
    ensures var b := EncodePrefix(p);
            && |b| == 1 + Octets(p.length) && b[0] == p.length
            && NewPrefix(From32(Padded(b[1..])), b[0]) == p
  {
    var k := Octets(p.length);
    if p.length == 0 {
      assert Pow2(32) > 0;
      assert p.address % Pow2(32) == 0;
    } else if p.length >= 32 {
      assert Pow2(0) == 1;
    } else {
      assert p.address % Pow2(32 - p.length) == 0;
      assert 32 - p.length == (32 - 8 * k) + (8 * k - p.length);
      CoarserModulus(p.address, 32 - 8 * k, 8 * k - p.length);
    }
    PaddingRestores(p.address, k);
    Be32RoundTrip(p.address);
    assert EncodePrefix(p)[1..] == Be32(p.address)[..k];
  }

  /** Any list of prefixes survives the wire. */
  lemma {:induction false} PrefixesRoundTrip(ps: seq<Prefix>)
    requires AllCanonical(ps)
    ensures DecodePrefixes(EncodePrefixes(ps)) == Ok(ps)
    decreases |ps|
  {
    if ps != [] {
      var head, tail := EncodePrefix(ps[0]), EncodePrefixes(ps[1..]);
      PrefixesRoundTrip(ps[1..]);
      PrefixRoundTrip(ps[0]);
      var data := head + tail;
      var end := 1 + Octets(ps[0].length);
      assert data[0] == head[0] && data[1..end] == head[1..] && data[end..] == tail;
      assert ps == [ps[0]] + ps[1..];
    }
  }

  ghost function Remainder(done: seq<Prefix>, rest: Result<seq<Prefix>>): Result<seq<Prefix>> {
    if rest.Err? then rest else Ok(done + rest.value)
  }

  lemma RemainderAll(r: Result<seq<Prefix>>)
    ensures Remainder([], r) == r
  {
    if r.Ok? { assert [] + r.value == r.value; }
  }

  lemma DecodeAt(data: seq<U8>, i: nat, done: seq<Prefix>)
    requires i < |data| && data[i] <= 32 && i + 1 + Octets(data[i]) <= |data|
    ensures var end := i + 1 + Octets(data[i]);
            Remainder(done, DecodePrefixes(data[i..])) ==
            Remainder(done + [NewPrefix(From32(Padded(data[i + 1..end])), data[i])], DecodePrefixes(data[end..]))
  {
    var end := i + 1 + Octets(data[i]);
    var p := NewPrefix(From32(Padded(data[i + 1..end])), data[i]);
    assert data[i..][1..end - i] == data[i + 1..end] && data[i..][end - i..] == data[end..];
    var rest := DecodePrefixes(data[end..]);
    assert DecodePrefixes(data[i..]) == if rest.Err? then rest else Ok([p] + rest.value);
    if rest.Ok? { Associative(done, [p], rest.value); }
  }

  /** The decoder walks the octets by index; truncation or a length above 32 is refused. */
  method DecodeList(data: seq<U8>) returns (r: Result<seq<Prefix>>)
    ensures r == DecodePrefixes(data)
  {
    var out: seq<Prefix> := [];
    var i := 0;
    assert data[0..] == data;
    RemainderAll(DecodePrefixes(data));
    while i < |data|
      invariant 0 <= i <= |data|
      invariant DecodePrefixes(data) == Remainder(out, DecodePrefixes(data[i..]))
      decreases |data| - i
    {
      var bits := data[i];
      if bits > 32 {
        return Err(SUB_INVALID_NETWORK_FIELD);
      }
      var end := i + 1 + Octets(bits);
      if end > |data| {
        return Err(SUB_INVALID_NETWORK_FIELD);
      }
      DecodeAt(data, i, out);
      out := out + [NewPrefix(From32(Padded(data[i + 1..end])), bits)];
      i := end;
    }
    assert data[i..] == [] && out + [] == out;
    return Ok(out);
  }
}
