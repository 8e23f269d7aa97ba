/**
 AS_PATH on the wire: two- and four-octet encodings, the decoder, and the AS4_PATH
 merge of RFC 6793 section 4.2.3.
 */
module AsPathCodec {
  import opened BgpTypes

  datatype Result<+T> = Ok(value: T) | Err(subcode: U8) {
    predicate IsFailure() { Err? }
    function PropagateFailure<U>(): Result<U>
      requires Err?
    {
      Err(subcode)
    }
    function Extract(): T
      requires Ok?
    {
      value
    }
  }

  const AS_TRANS: U16 := 23456
  const AS_SET_CODE: U8 := 1
  const AS_SEQUENCE_CODE: U8 := 2

  // ------------------------------------------------------------------ integers

  function Be16(x: U16): (r: seq<U8>)
    ensures |r| == 2
  {
    [x / 0x100, x % 0x100]
  }

  function Be32(x: U32): (r: seq<U8>)
    ensures |r| == 4
  {
    Be16(x / 0x1_0000) + Be16(x % 0x1_0000)
  }

  function From16(b: seq<U8>): U16
    requires |b| == 2
  {
    (b[0] as int) * 0x100 + b[1]
  }

  function From32(b: seq<U8>): U32
    requires |b| == 4
  {
    (From16(b[..2]) as int) * 0x1_0000 + From16(b[2..])
  }

  lemma Be16RoundTrip(x: U16)
    ensures From16(Be16(x)) == x
  {}

  lemma Be32RoundTrip(x: U32)
    ensures From32(Be32(x)) == x
  {
    assert Be32(x)[..2] == Be16(x / 0x1_0000) && Be32(x)[2..] == Be16(x % 0x1_0000);
  }

  lemma Slices<T>(data: seq<T>, i: nat, from: nat, end: nat)
    requires i + from <= end <= |data|
    ensures data[i..][from..end - i] == data[i + from..end] && data[i..][end - i..] == data[end..]
  {}

  lemma Associative<T>(a: seq<T>, b: seq<T>, c: seq<T>)
    ensures a + b + c == a + (b + c)
  {}

  // ------------------------------------------------------------------ encoding

  function Width(four: bool): nat {
    if four then 4 else 2
  }

  /** Octets taken by `count` ASNs. */
  function Span(count: nat, four: bool): nat {
    if four then 4 * count else 2 * count
  }

  /** What stands for the ASN where only two octets are available. */
  function Narrow(asn: U32): U16 {
    if asn < 0x1_0000 then asn else AS_TRANS
  }

  function EncodeAsn(asn: U32, four: bool): (r: seq<U8>)
    ensures |r| == Width(four)
  {
    if four then Be32(asn) else Be16(Narrow(asn))
  }

  function EncodeAsns(asns: seq<U32>, four: bool): (r: seq<U8>)
    ensures |r| == Span(|asns|, four)
  {
    if asns == [] then [] else EncodeAsn(asns[0], four) + EncodeAsns(asns[1..], four)
  }

  function KindCode(kind: SegmentKind): U8 {
    if kind.AsSet? then AS_SET_CODE else AS_SEQUENCE_CODE
  }

  function ChunkLen(n: nat): nat {
    if n < MAX_SEGMENT_ASNS then n else MAX_SEGMENT_ASNS
  }

  /** One segment, split into chunks of at most 255 ASNs; an empty one vanishes. */
  function EncodeSegment(kind: SegmentKind, asns: seq<U32>, four: bool): seq<U8>
    decreases |asns|
  {
    if asns == [] then []
    else
      var n := ChunkLen(|asns|);
      [KindCode(kind), n] + EncodeAsns(asns[..n], four) + EncodeSegment(kind, asns[n..], four)
  }

  function EncodeSegments(segments: seq<Segment>, four: bool): seq<U8> {
    if segments == [] then []
    else EncodeSegment(segments[0].kind, segments[0].asns, four) + EncodeSegments(segments[1..], four)
  }

  function EncodePath(p: AsPath, four: bool): seq<U8> {
    EncodeSegments(p.segments, four)
  }

  // ------------------------------------------------------------------ decoding

  function DecodeAsn(b: seq<U8>, four: bool): U32
    requires |b| == Width(four)
  {
    if four then From32(b) else From16(b)
  }

  function DecodeAsns(b: seq<U8>, count: nat, four: bool): (r: seq<U32>)
    requires |b| == Span(count, four)
    ensures |r| == count
    decreases count
  {
    if count == 0 then []
    else [DecodeAsn(b[..Width(four)], four)] + DecodeAsns(b[Width(four)..], count - 1, four)
  }

  function DecodeSegments(data: seq<U8>, four: bool): Result<seq<Segment>>
    decreases |data|
  {
    if data == [] then Ok([])
    else if |data| < 2 then Err(SUB_MALFORMED_AS_PATH)
    else if data[0] != AS_SET_CODE && data[0] != AS_SEQUENCE_CODE then Err(SUB_MALFORMED_AS_PATH)
    else if data[1] == 0 then Err(SUB_MALFORMED_AS_PATH)
    else
      var end := 2 + Span(data[1], four);
      if end > |data| then Err(SUB_MALFORMED_AS_PATH)
      else
        var rest :- DecodeSegments(data[end..], four);
        Ok([Segment(if data[0] == AS_SET_CODE then AsSet else AsSequence,
                    DecodeAsns(data[2..end], data[1], four))] + rest)
  }

  function DecodePath(data: seq<U8>, four: bool): Result<AsPath> {
    var segments :- DecodeSegments(data, four);
    Ok(AsPath(segments))
  }

  // ---------------------------------------------------------------- round trip

  function Chunks(kind: SegmentKind, asns: seq<U32>): seq<Segment>
    decreases |asns|
  {
    if asns == [] then []
    else
      var n := ChunkLen(|asns|);
      [Segment(kind, asns[..n])] + Chunks(kind, asns[n..])
  }

  /** Long segments split, empty segments dropped: what any encoding can carry. */
  function Split(segments: seq<Segment>): seq<Segment> {
    if segments == [] then []
    else Chunks(segments[0].kind, segments[0].asns) + Split(segments[1..])
  }

  function NarrowAll(asns: seq<U32>): seq<U32> {
    seq(|asns|, i requires 0 <= i < |asns| => Narrow(asns[i]))
  }

  function NarrowSegments(segments: seq<Segment>): seq<Segment> {
    seq(|segments|, i requires 0 <= i < |segments| => Segment(segments[i].kind, NarrowAll(segments[i].asns)))
  }

  function AtWidth(segments: seq<Segment>, four: bool): seq<Segment> {
    if four then segments else NarrowSegments(segments)
  }

  /** The path a receiver reads off the encoding. */
  function Seen(segments: seq<Segment>, four: bool): seq<Segment> {
    AtWidth(Split(segments), four)
  }

  lemma AtWidthAppend(a: seq<Segment>, b: seq<Segment>, four: bool)
    ensures AtWidth(a + b, four) == AtWidth(a, four) + AtWidth(b, four)
  {}

  function SeenAsns(asns: seq<U32>, four: bool): seq<U32> {
    if four then asns else NarrowAll(asns)
  }

  lemma AsnRoundTrip(asn: U32, four: bool)
    ensures DecodeAsn(EncodeAsn(asn, four), four) == if four then asn else Narrow(asn)
  {
    if four { Be32RoundTrip(asn); } else { Be16RoundTrip(Narrow(asn)); }
  }

  lemma SeenStep(asns: seq<U32>, four: bool)
    requires asns != []
    ensures SeenAsns(asns, four) == [if four then asns[0] else Narrow(asns[0])] + SeenAsns(asns[1..], four)
  {}

  lemma {:induction false} AsnsRoundTrip(asns: seq<U32>, four: bool)
    ensures DecodeAsns(EncodeAsns(asns, four), |asns|, four) == SeenAsns(asns, four)
    decreases |asns|
  {
    if asns != [] {
      var b, w := EncodeAsns(asns, four), Width(four);
      assert b[..w] == EncodeAsn(asns[0], four) && b[w..] == EncodeAsns(asns[1..], four);
      AsnsRoundTrip(asns[1..], four);
      AsnRoundTrip(asns[0], four);
      SeenStep(asns, four);
    }
  }

  /** Decoding one encoded chunk leaves exactly what follows it. */
  lemma ChunkRoundTrip(kind: SegmentKind, asns: seq<U32>, four: bool, rest: seq<U8>)
    requires 1 <= |asns| <= MAX_SEGMENT_ASNS
    ensures var data := [KindCode(kind), |asns|] + EncodeAsns(asns, four) + rest;
            DecodeSegments(data, four) ==
              var r := DecodeSegments(rest, four);
              if r.Err? then r else Ok([Segment(kind, SeenAsns(asns, four))] + r.value)
  {
    var body := EncodeAsns(asns, four);
    var data := [KindCode(kind), |asns|] + body + rest;
    var end := 2 + Span(|asns|, four);
    assert data[0] == KindCode(kind) && data[1] == |asns|;
    assert data[2..end] == body && data[end..] == rest;
    AsnsRoundTrip(asns, four);
  }

  lemma {:induction false} SegmentRoundTrip(kind: SegmentKind, asns: seq<U32>, four: bool, rest: seq<U8>, tail: seq<Segment>)
    requires DecodeSegments(rest, four) == Ok(tail)
    ensures DecodeSegments(EncodeSegment(kind, asns, four) + rest, four) == Ok(AtWidth(Chunks(kind, asns), four) + tail)
    decreases |asns|
  {
    if asns == [] {
      assert EncodeSegment(kind, asns, four) + rest == rest;
      assert AtWidth(Chunks(kind, asns), four) == [];
      assert [] + tail == tail;
    } else {
      var n := ChunkLen(|asns|);
      var body, more := EncodeAsns(asns[..n], four), EncodeSegment(kind, asns[n..], four);
      SegmentRoundTrip(kind, asns[n..], four, rest, tail);
      ChunkRoundTrip(kind, asns[..n], four, more + rest);
      Associative([KindCode(kind), n] + body, more, rest);
      var head, cs := Segment(kind, asns[..n]), Chunks(kind, asns[n..]);
      AtWidthAppend([head], cs, four);
      assert AtWidth([head], four) == [Segment(kind, SeenAsns(asns[..n], four))];
      Associative(AtWidth([head], four), AtWidth(cs, four), tail);
    }
  }

  /** Every path can be encoded, and what is read back is its splitting, narrowed on a two-octet session. */
  lemma {:induction false} PathRoundTrip(segments: seq<Segment>, four: bool)
    ensures DecodeSegments(EncodeSegments(segments, four), four) == Ok(Seen(segments, four))
    decreases |segments|
  {
    if segments == [] {
      assert AtWidth(Split([]), four) == [];
    } else {
      PathRoundTrip(segments[1..], four);
      var s := segments[0];
      SegmentRoundTrip(s.kind, s.asns, four, EncodeSegments(segments[1..], four), Seen(segments[1..], four));
      AtWidthAppend(Chunks(s.kind, s.asns), Split(segments[1..]), four);
    }
  }

  /** Every segment holds 1 to 255 ASNs. */
  predicate Tidy(segments: seq<Segment>) {
    forall i :: 0 <= i < |segments| ==> 1 <= |segments[i].asns| <= 255
  }

  lemma {:induction false} SplitTidy(segments: seq<Segment>)
    ensures Tidy(Split(segments))
    ensures Tidy(segments) ==> Split(segments) == segments
    decreases |segments|
  {
    if segments != [] {
      SplitTidy(segments[1..]);
      ChunksTidy(segments[0].kind, segments[0].asns);
      if Tidy(segments) {
        var s := segments[0];
        assert s.asns[..|s.asns|] == s.asns && s.asns[|s.asns|..] == [];
        assert Chunks(s.kind, s.asns) == [s];
        assert segments == [s] + segments[1..];
      }
    }
  }

  lemma {:induction false} ChunksTidy(kind: SegmentKind, asns: seq<U32>)
    ensures Tidy(Chunks(kind, asns))
    decreases |asns|
  {
    if asns != [] { ChunksTidy(kind, asns[ChunkLen(|asns|)..]); }
  }

  /** The four-octet encoding returns the very same path exactly when every segment holds 1 to 255 ASNs. */
  lemma FourOctetExactIff(p: AsPath)
    ensures DecodePath(EncodePath(p, true), true) == Ok(p) <==> Tidy(p.segments)
  {
    PathRoundTrip(p.segments, true);
    SplitTidy(p.segments);
  }

  lemma {:induction false} FlattenAppend(a: seq<Segment>, b: seq<Segment>)
    ensures FlattenSegments(a + b) == FlattenSegments(a) + FlattenSegments(b)
    decreases |a|
  {
    if a == [] {
      assert a + b == b;
    } else {
      FlattenAppend(a[1..], b);
      assert (a + b)[1..] == a[1..] + b;
    }
  }

  lemma {:induction false} FlattenChunks(kind: SegmentKind, asns: seq<U32>)
    ensures FlattenSegments(Chunks(kind, asns)) == asns
    decreases |asns|
  {
    if asns != [] {
      var n := ChunkLen(|asns|);
      FlattenChunks(kind, asns[n..]);
      assert asns == asns[..n] + asns[n..];
    }
  }

  /** Splitting changes no ASN and no order. */
  lemma {:induction false} FlattenSplit(segments: seq<Segment>)
    ensures FlattenSegments(Split(segments)) == FlattenSegments(segments)
    decreases |segments|
  {
    if segments != [] {
      FlattenSplit(segments[1..]);
      FlattenChunks(segments[0].kind, segments[0].asns);
      FlattenAppend(Chunks(segments[0].kind, segments[0].asns), Split(segments[1..]));
    }
  }

  lemma {:induction false} FlattenNarrow(segments: seq<Segment>)
    ensures FlattenSegments(NarrowSegments(segments)) == NarrowAll(FlattenSegments(segments))
    decreases |segments|
  {
    if segments != [] {
      FlattenNarrow(segments[1..]);
      var ns := NarrowSegments(segments);
      assert ns[1..] == NarrowSegments(segments[1..]);
      assert NarrowAll(FlattenSegments(segments))
          == NarrowAll(segments[0].asns) + NarrowAll(FlattenSegments(segments[1..]));
    }
  }

  // ------------------------------------------------------------ AS4_PATH merge

  predicate NeedsFourOctets(p: AsPath) {
    exists i :: 0 <= i < |p.Flatten()| && p.Flatten()[i] >= 0x1_0000
  }

  predicate SequenceOnly(segments: seq<Segment>) {
    forall i :: 0 <= i < |segments| ==> segments[i].kind.AsSequence?
  }

  function SequencePath(asns: seq<U32>): AsPath {
    if asns == [] then AsPath([]) else AsPath([Segment(AsSequence, asns)])
  }

  /** AS4_PATH replaces that many trailing hops; anything it cannot be spliced onto is kept as it is. */
  function MergeAs4(narrow: AsPath, as4: AsPath): AsPath {
    var n, w := narrow.Flatten(), as4.Flatten();
    if w == [] || |w| > |n| then narrow
    else if !SequenceOnly(narrow.segments) || !SequenceOnly(as4.segments) then narrow
    else SequencePath(n[..|n| - |w|] + w)
  }

  /**
   Exactly when AS4_PATH is spliced in, and how: it may not be empty nor longer than the path,
   and no set may stand in either; then it takes the place of the trailing hops.
   */
  lemma MergeIff(narrow: AsPath, as4: AsPath)
    ensures var n, w, merged := narrow.Flatten(), as4.Flatten(), MergeAs4(narrow, as4);
            if w == [] || |w| > |n|
               || (exists i :: 0 <= i < |narrow.segments| && narrow.segments[i].kind.AsSet?)
               || (exists i :: 0 <= i < |as4.segments| && as4.segments[i].kind.AsSet?)
            then merged == narrow
            else
              && |merged.segments| == 1 && merged.segments[0].kind.AsSequence? && |merged.Flatten()| == |n|
              && (forall i :: 0 <= i < |n| ==> merged.Flatten()[i] == if i < |n| - |w| then n[i] else w[i - (|n| - |w|)])
  {
    var n, w := narrow.Flatten(), as4.Flatten();
    if |w| <= |n| {
      SequencePathFlatten(n[..|n| - |w|] + w);
    }
  }

  /** What a two-octet session delivers: AS_PATH alone, or merged with AS4_PATH when that was sent. */
  function TwoOctetDelivery(p: AsPath): AsPath {
    var narrow := AsPath(Seen(p.segments, false));
    if NeedsFourOctets(p) then MergeAs4(narrow, AsPath(Seen(p.segments, true))) else narrow
  }

  lemma SequencePathFlatten(asns: seq<U32>)
    ensures SequencePath(asns).Flatten() == asns
  {
    if asns != [] {
      var segments := [Segment(AsSequence, asns)];
      assert segments[1..] == [] && FlattenSegments(segments[1..]) == [];
    }
  }

  lemma NarrowLosesIff(asns: seq<U32>)
    ensures NarrowAll(asns) == asns <==> forall i :: 0 <= i < |asns| ==> asns[i] < 0x1_0000
  {
    if i :| 0 <= i < |asns| && asns[i] >= 0x1_0000 {
      assert NarrowAll(asns)[i] != asns[i];
    }
  }

  /**
   A two-octet session delivers the true list of ASNs exactly when no ASN needs four
   octets or every (non-empty) segment is a sequence. With an AS_SET in the way the
   merge gives up and AS_TRANS stays.
   */
  lemma TwoOctetRestoresIff(p: AsPath)
    ensures TwoOctetDelivery(p).Flatten() == p.Flatten() <==>
            !NeedsFourOctets(p) || SequenceOnly(Split(p.segments))
  {
    var asns := p.Flatten();
    FlattenSplit(p.segments);
    FlattenNarrow(Split(p.segments));
    NarrowLosesIff(asns);
    SequencePathFlatten(asns);
    var narrow, wide := AsPath(Seen(p.segments, false)), AsPath(Seen(p.segments, true));
    assert narrow.Flatten() == NarrowAll(asns) && wide.Flatten() == asns;
    if NeedsFourOctets(p) {
      assert asns != [];
      assert SequenceOnly(narrow.segments) <==> SequenceOnly(wide.segments) by {
        assert forall i :: 0 <= i < |narrow.segments| ==> narrow.segments[i].kind == wide.segments[i].kind;
      }
      assert NarrowAll(asns)[..0] + asns == asns;
    }
  }

  /** AS_PATH alone tells a two-octet session every AS number that fits, and 23456 for each that does not. */
  lemma TwoOctetPathShows(p: AsPath, i: nat)
    requires i < |p.Flatten()|
    ensures var read := DecodePath(EncodePath(p, false), false);
            && read.Ok? && |read.value.Flatten()| == |p.Flatten()|
            && read.value.Flatten()[i] == if p.Flatten()[i] < 0x1_0000 then p.Flatten()[i] else 23456
  {
    PathRoundTrip(p.segments, false);
    FlattenSplit(p.segments);
    FlattenNarrow(Split(p.segments));
  }

  // ------------------------------------------------------------ the code's loops

  lemma {:induction false} EncodeAsnsSnoc(asns: seq<U32>, a: U32, four: bool)
    ensures EncodeAsns(asns + [a], four) == EncodeAsns(asns, four) + EncodeAsn(a, four)
    decreases |asns|
  {
    if asns == [] {
      assert asns + [a] == [a] && [a][1..] == [];
    } else {
      EncodeAsnsSnoc(asns[1..], a, four);
      assert (asns + [a])[0] == asns[0] && (asns + [a])[1..] == asns[1..] + [a];
      Associative(EncodeAsn(asns[0], four), EncodeAsns(asns[1..], four), EncodeAsn(a, four));
    }
  }

  lemma {:induction false} EncodeSegmentsSnoc(segments: seq<Segment>, s: Segment, four: bool)
    ensures EncodeSegments(segments + [s], four) == EncodeSegments(segments, four) + EncodeSegment(s.kind, s.asns, four)
    decreases |segments|
  {
    if segments == [] {
      assert segments + [s] == [s] && [s][1..] == [];
    } else {
      EncodeSegmentsSnoc(segments[1..], s, four);
      assert (segments + [s])[0] == segments[0] && (segments + [s])[1..] == segments[1..] + [s];
      Associative(EncodeSegment(segments[0].kind, segments[0].asns, four), EncodeSegments(segments[1..], four),
                  EncodeSegment(s.kind, s.asns, four));
    }
  }

  lemma ChunkAt(s: Segment, at: nat, four: bool)
    requires at < |s.asns|
    ensures var n := ChunkLen(|s.asns| - at);
            EncodeSegment(s.kind, s.asns[at..], four) ==
              [KindCode(s.kind), n] + EncodeAsns(s.asns[at..at + n], four)
              + EncodeSegment(s.kind, s.asns[at + n..], four)
  {
    var n := ChunkLen(|s.asns| - at);
    assert s.asns[at..][..n] == s.asns[at..at + n] && s.asns[at..][n..] == s.asns[at + n..];
  }

  /** The encoding of the ASNs from `at` on. */
  ghost function Pending(s: Segment, at: nat, four: bool): seq<U8>
    requires at <= |s.asns|
  {
    EncodeSegment(s.kind, s.asns[at..], four)
  }

  lemma PendingEnds(s: Segment, four: bool)
    ensures Pending(s, 0, four) == EncodeSegment(s.kind, s.asns, four) && Pending(s, |s.asns|, four) == []
  {
    assert s.asns[0..] == s.asns && s.asns[|s.asns|..] == [];
  }

  lemma ChunkNext(s: Segment, at: nat, n: nat, four: bool, out: seq<U8>, chunk: seq<U8>)
    requires at < |s.asns| && n == ChunkLen(|s.asns| - at)
    requires chunk == [KindCode(s.kind), n] + EncodeAsns(s.asns[at..at + n], four)
    ensures out + Pending(s, at, four) == out + chunk + Pending(s, at + n, four)
  {
    ChunkAt(s, at, four);
    Associative(out, chunk, Pending(s, at + n, four));
  }

  method EncodeChunk(kind: SegmentKind, asns: seq<U32>, four: bool) returns (out: seq<U8>)
    requires |asns| <= MAX_SEGMENT_ASNS
    ensures out == [KindCode(kind), |asns|] + EncodeAsns(asns, four)
  {
    out := [KindCode(kind), |asns|];
    for k := 0 to |asns|
      invariant out == [KindCode(kind), |asns|] + EncodeAsns(asns[..k], four)
    {
      EncodeAsnsSnoc(asns[..k], asns[k], four);
      assert asns[..k + 1] == asns[..k] + [asns[k]];
      Associative([KindCode(kind), |asns|], EncodeAsns(asns[..k], four), EncodeAsn(asns[k], four));
      out := out + EncodeAsn(asns[k], four);
    }
    assert asns[..|asns|] == asns;
  }

  method EncodeOneSegment(s: Segment, four: bool) returns (out: seq<U8>)
    ensures out == EncodeSegment(s.kind, s.asns, four)
  {
    out := [];
    var at := 0;
    PendingEnds(s, four);
    while at < |s.asns|
      invariant 0 <= at <= |s.asns|
      invariant Written(s, at, four, out)
    {
      var n := ChunkLen(|s.asns| - at);
      var chunk := EncodeChunk(s.kind, s.asns[at..at + n], four);
      WrittenNext(s, at, n, four, out, chunk);
      out := out + chunk;
      at := at + n;
    }
    WrittenAll(s, four, out);
  }

  /** The octets up to position `at` are written. */
  ghost predicate Written(s: Segment, at: nat, four: bool, out: seq<U8>)
    requires at <= |s.asns|
  {
    out + Pending(s, at, four) == Pending(s, 0, four)
  }

  lemma WrittenNext(s: Segment, at: nat, n: nat, four: bool, out: seq<U8>, chunk: seq<U8>)
    requires at < |s.asns| && n == ChunkLen(|s.asns| - at) && Written(s, at, four, out)
    requires chunk == [KindCode(s.kind), n] + EncodeAsns(s.asns[at..at + n], four)
    ensures Written(s, at + n, four, out + chunk)
  {
    ChunkNext(s, at, n, four, out, chunk);
  }

  lemma WrittenAll(s: Segment, four: bool, out: seq<U8>)
    requires Written(s, |s.asns|, four, out)
    ensures out == EncodeSegment(s.kind, s.asns, four)
  {
    PendingEnds(s, four);
    assert out + [] == out;
  }

  /** The encoder pushes octets segment by segment, chunk by chunk, ASN by ASN. */
  method Encode(p: AsPath, four: bool) returns (out: seq<U8>)
    ensures out == EncodePath(p, four)
  {
    out := [];
    for i := 0 to |p.segments|
      invariant out == EncodeSegments(p.segments[..i], four)
    {
      var more := EncodeOneSegment(p.segments[i], four);
      EncodeSegmentsSnoc(p.segments[..i], p.segments[i], four);
      assert p.segments[..i + 1] == p.segments[..i] + [p.segments[i]];
      out := out + more;
    }
    assert p.segments[..|p.segments|] == p.segments;
  }

  /** What is left to decode after `segments` have been read. */
  ghost function Remaining(segments: seq<Segment>, rest: Result<seq<Segment>>): Result<seq<Segment>> {
    if rest.Err? then rest else Ok(segments + rest.value)
  }

  lemma RemainingAll(r: Result<seq<Segment>>)
    ensures Remaining([], r) == r
  {
    if r.Ok? { assert [] + r.value == r.value; }
  }

  lemma DecodeAt(data: seq<U8>, i: nat, four: bool, segments: seq<Segment>)
    requires i + 2 <= |data| && (data[i] == AS_SET_CODE || data[i] == AS_SEQUENCE_CODE) && data[i + 1] > 0
    requires i + 2 + Span(data[i + 1], four) <= |data|
    ensures var end := i + 2 + Span(data[i + 1], four);
            var s := Segment(if data[i] == AS_SET_CODE then AsSet else AsSequence,
                             DecodeAsns(data[i + 2..end], data[i + 1], four));
            Remaining(segments, DecodeSegments(data[i..], four)) ==
            Remaining(segments + [s], DecodeSegments(data[end..], four))
  {
    var end := i + 2 + Span(data[i + 1], four);
    Slices(data, i, 2, end);
    var s := Segment(if data[i] == AS_SET_CODE then AsSet else AsSequence,
                     DecodeAsns(data[i + 2..end], data[i + 1], four));
    var rest := DecodeSegments(data[end..], four);
    assert DecodeSegments(data[i..], four) == if rest.Err? then rest else Ok([s] + rest.value);
    if rest.Ok? {
      Associative(segments, [s], rest.value);
    }
  }

  /** One segment at octet `i`, and where it ends. */
  method DecodeSegment(data: seq<U8>, i: nat, four: bool, ghost segments: seq<Segment>) returns (r: Result<Segment>, end: nat)
    requires i < |data|
    ensures r.Err? ==> DecodeSegments(data[i..], four) == Err(r.subcode)
    ensures r.Ok? ==>
              && i < end <= |data|
              && Remaining(segments, DecodeSegments(data[i..], four)) ==
                   Remaining(segments + [r.value], DecodeSegments(data[end..], four))
  {
    end := i;
    if i + 2 > |data| || (data[i] != AS_SET_CODE && data[i] != AS_SEQUENCE_CODE) || data[i + 1] == 0 {
      return Err(SUB_MALFORMED_AS_PATH), end;
    }
    var count := data[i + 1];
    end := i + 2 + Span(count, four);
    if end > |data| {
      return Err(SUB_MALFORMED_AS_PATH), end;
    }
    DecodeAt(data, i, four, segments);
    var kind := if data[i] == AS_SET_CODE then AsSet else AsSequence;
    r := Ok(Segment(kind, DecodeAsns(data[i + 2..end], count, four)));
  }

  /** The decoder walks the octets by index and stops at the first malformed segment. */
  method Decode(data: seq<U8>, four: bool) returns (r: Result<AsPath>)
    ensures r == DecodePath(data, four)
  {
    var segments: seq<Segment> := [];
    var i := 0;
    assert data[0..] == data;
    RemainingAll(DecodeSegments(data, four));
    while i < |data|
      invariant 0 <= i <= |data|
      invariant DecodeSegments(data, four) == Remaining(segments, DecodeSegments(data[i..], four))
      decreases |data| - i
    {
      var one, end := DecodeSegment(data, i, four, segments);
      if one.Err? {
        return Err(one.subcode);
      }
      segments, i := segments + [one.value], end;
    }
    assert data[i..] == [] && segments + [] == segments;
    return Ok(AsPath(segments));
  }
}
