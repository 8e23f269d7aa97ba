/**
 The decision process: how two candidate paths are ordered, which candidate wins,
 and when the winner depends on the order the candidates are listed in.
 */
module Decision {
  import opened BgpTypes
  import opened Propagation

  datatype Ordering = Less | Equal | Greater {
    function Then(other: Ordering): Ordering {
      if Equal? then other else this
    }
  }

  function Cmp(a: int, b: int): Ordering {
    if a < b then Less else if a > b then Greater else Equal
  }

  function Rank(preferred: bool): nat {
    if preferred then 0 else 1
  }

  /** Values that different neighbouring ASes chose say nothing about each other. */
  function CompareMed(a: BgpPath, b: BgpPath): Ordering {
    if a.asPath.FirstAs().Some? && a.asPath.FirstAs() == b.asPath.FirstAs()
    then Cmp(a.med.GetOr(0), b.med.GetOr(0))
    else Equal
  }

  function BeforeMed(a: BgpPath, b: BgpPath): Ordering {
    Cmp(Rank(a.source.Local?), Rank(b.source.Local?))
    .Then(Cmp(b.localPref, a.localPref))
    .Then(Cmp(a.asPath.Length(), b.asPath.Length()))
    .Then(Cmp(a.origin.Rank(), b.origin.Rank()))
  }

  function AfterMed(a: BgpPath, b: BgpPath): Ordering {
    Cmp(Rank(a.source.Ebgp?), Rank(b.source.Ebgp?))
    .Then(Cmp(|a.clusterList|, |b.clusterList|))
    .Then(Cmp(a.peerRouterId, b.peerRouterId))
    .Then(Cmp(a.peerAddr, b.peerAddr))
  }

  /** `Less` means `a` wins. */
  function ComparePaths(a: BgpPath, b: BgpPath): Ordering {
    BeforeMed(a, b).Then(CompareMed(a, b)).Then(AfterMed(a, b))
  }

  function Better(best: BgpPath, next: BgpPath): BgpPath {
    if ComparePaths(next, best).Less? then next else best
  }

  /** Left-to-right reduction over the candidates. */
  function SelectBest(cs: seq<BgpPath>): Option<BgpPath> {
    if cs == [] then None
    else if |cs| == 1 then Some(cs[0])
    else Some(Better(SelectBest(cs[..|cs| - 1]).value, cs[|cs| - 1]))
  }

  // ------------------------------------------------------- order of the paths

  /** The comparison is antisymmetric, and paths from different peers never tie. */
  lemma ComparisonIsATournament(a: BgpPath, b: BgpPath)
    ensures ComparePaths(a, b).Less? <==> ComparePaths(b, a).Greater?
    ensures ComparePaths(a, b).Equal? ==> a.peerAddr == b.peerAddr && a.peerRouterId == b.peerRouterId
  {}

  function OriginRank(o: Origin): int {
    if o == Igp then 0 else if o == Egp then 1 else 2
  }

  /** Both paths name the same neighbouring AS. */
  predicate SameNeighbour(a: BgpPath, b: BgpPath) {
    a.asPath.FirstAs().Some? && a.asPath.FirstAs() == b.asPath.FirstAs()
  }

  function MedOf(a: BgpPath): int {
    if a.med.Some? then a.med.value else 0
  }

  /** What comes after MED: external over internal, shorter cluster list, lower router identifier, lower address. */
  predicate OutranksAtTheEnd(a: BgpPath, b: BgpPath) {
    if a.source.Ebgp? != b.source.Ebgp? then a.source.Ebgp?
    else if |a.clusterList| != |b.clusterList| then |a.clusterList| < |b.clusterList|
    else if a.peerRouterId != b.peerRouterId then a.peerRouterId < b.peerRouterId
    else a.peerAddr < b.peerAddr
  }

  /**
   The documented steps in their documented order: a route of our own, then the higher local
   preference, the shorter path, the lower origin, among routes of one neighbouring AS the
   lower MED, and then the tie-breakers.
   */
  predicate Outranks(a: BgpPath, b: BgpPath) {
    if a.source.Local? != b.source.Local? then a.source.Local?
    else if a.localPref != b.localPref then a.localPref > b.localPref
    else if a.asPath.Length() != b.asPath.Length() then a.asPath.Length() < b.asPath.Length()
    else if a.origin != b.origin then OriginRank(a.origin) < OriginRank(b.origin)
    else if SameNeighbour(a, b) && MedOf(a) != MedOf(b) then MedOf(a) < MedOf(b)
    else OutranksAtTheEnd(a, b)
  }

  lemma LessIffOutranks(a: BgpPath, b: BgpPath)
    ensures ComparePaths(a, b).Less? <==> Outranks(a, b)
  {}

  ghost predicate DistinctPeers(cs: seq<BgpPath>) {
    forall i, j :: 0 <= i < j < |cs| ==> cs[i].peerAddr != cs[j].peerAddr
  }

  /** `w` wins every pairwise comparison. */
  ghost predicate BeatsAll(w: BgpPath, cs: seq<BgpPath>) {
    w in cs && forall c :: c in cs && c != w ==> ComparePaths(w, c).Less?
  }

  ghost predicate Permutation(ds: seq<BgpPath>, cs: seq<BgpPath>) {
    multiset(ds) == multiset(cs)
  }

  lemma SelectedIsACandidate(cs: seq<BgpPath>)
    ensures cs != [] <==> SelectBest(cs).Some?
    ensures cs != [] ==> SelectBest(cs).value in cs
  {}

  /** A path that beats every other one is selected wherever it stands in the list. */
  lemma {:induction false} PairwiseWinnerIsSelected(cs: seq<BgpPath>, w: BgpPath)
    requires BeatsAll(w, cs)
    ensures SelectBest(cs) == Some(w)
    decreases |cs|
  {
    if |cs| > 1 {
      var init, last := cs[..|cs| - 1], cs[|cs| - 1];
      SelectedIsACandidate(init);
      assert forall c :: c in init ==> c in cs;
      if w in init {
        PairwiseWinnerIsSelected(init, w);
        ComparisonIsATournament(w, last);
      } else {
        assert last == w;
        assert SelectBest(init).value in cs;
      }
    }
  }

  /** Nothing that is compared before MED speaks for `c` and against `w`. */
  predicate PreferredBeforeMed(w: BgpPath, c: BgpPath) {
    && (c.source.Local? ==> w.source.Local?)
    && (c.source.Local? == w.source.Local? ==>
          && c.localPref <= w.localPref
          && (c.localPref == w.localPref ==>
                && w.asPath.Length() <= c.asPath.Length()
                && (w.asPath.Length() == c.asPath.Length() ==> w.origin.Rank() <= c.origin.Rank())))
  }

  lemma LoserIsNotPreferred(w: BgpPath, c: BgpPath)
    requires !ComparePaths(c, w).Less?
    ensures PreferredBeforeMed(w, c)
  {
    LessIffOutranks(c, w);
  }

  /**
   MED circles reach only so far: in whatever order the candidates are listed, the selected
   path is local if one is, and has the highest local preference, the shortest path and the
   lowest origin, in that order.
   */
  lemma {:induction false} SelectedIsPreferred(cs: seq<BgpPath>, c: BgpPath)
    requires c in cs
    ensures PreferredBeforeMed(SelectBest(cs).value, c)
    decreases |cs|
  {
    SelectedIsACandidate(cs);
    if |cs| > 1 {
      var init, last := cs[..|cs| - 1], cs[|cs| - 1];
      SelectedIsACandidate(init);
      var w := SelectBest(init).value;
      ComparisonIsATournament(last, w);
      if Better(w, last) == last && ComparePaths(last, w).Less? {
        LoserIsNotPreferred(last, w);
      } else {
        LoserIsNotPreferred(w, last);
      }
      if c in init {
        SelectedIsPreferred(init, c);
      }
    }
  }

  /** No path listed after the selected one outranks it, circles or not. */
  lemma {:induction false} NoLaterPathOutranks(cs: seq<BgpPath>) returns (i: nat)
    requires cs != []
    ensures i < |cs| && SelectBest(cs) == Some(cs[i])
    ensures forall j :: i < j < |cs| ==> !Outranks(cs[j], cs[i])
    decreases |cs|
  {
    var n := |cs| - 1;
    if n == 0 {
      i := 0;
    } else {
      i := NoLaterPathOutranks(cs[..n]);
      LessIffOutranks(cs[n], cs[i]);
      if Outranks(cs[n], cs[i]) {
        i := n;
      }
    }
  }

  lemma MembersOfPermutation(ds: seq<BgpPath>, cs: seq<BgpPath>)
    requires Permutation(ds, cs)
    ensures forall c :: c in ds <==> c in cs
  {
    forall c ensures c in ds <==> c in cs {
      assert c in ds <==> c in multiset(ds);
      assert c in cs <==> c in multiset(cs);
    }
  }

  lemma MoveToEnd(cs: seq<BgpPath>, k: nat) returns (ds: seq<BgpPath>)
    requires k < |cs|
    ensures Permutation(ds, cs) && |ds| == |cs| && ds[|ds| - 1] == cs[k]
  {
    ds := cs[..k] + cs[k + 1..] + [cs[k]];
    assert cs == cs[..k] + [cs[k]] + cs[k + 1..];
  }

  /** Distinct peers make a list element determined by its position. */
  lemma DistinctMembersDiffer(cs: seq<BgpPath>, a: BgpPath, b: BgpPath)
    requires DistinctPeers(cs) && a in cs && b in cs && a != b
    ensures a.peerAddr != b.peerAddr
  {}

  /**
   Exactly when selection ignores the order of the list: precisely when some
   candidate beats every other one in a pairwise comparison.
   */
  lemma OrderFreeIffPairwiseWinner(cs: seq<BgpPath>)
    requires cs != [] && DistinctPeers(cs)
    ensures (forall ds | Permutation(ds, cs) :: SelectBest(ds) == SelectBest(cs))
            <==> (exists w :: BeatsAll(w, cs))
  {
    if w :| BeatsAll(w, cs) {
      PairwiseWinnerIsSelected(cs, w);
      forall ds | Permutation(ds, cs) ensures SelectBest(ds) == SelectBest(cs) {
        MembersOfPermutation(ds, cs);
        PairwiseWinnerIsSelected(ds, w);
      }
    } else {
      SelectedIsACandidate(cs);
      var w := SelectBest(cs).value;
      assert !BeatsAll(w, cs);
      var v :| v in cs && v != w && !ComparePaths(w, v).Less?;
      ComparisonIsATournament(w, v);
      DistinctMembersDiffer(cs, w, v);
      var k :| 0 <= k < |cs| && cs[k] == v;
      var ds := MoveToEnd(cs, k);
      assert SelectBest(ds) != Some(w);
    }
  }

  // ---------------------------------------------------------- the MED condition

  ghost predicate MedUniform(cs: seq<BgpPath>) {
    || (forall a, b :: a in cs && b in cs ==> a.med.GetOr(0) == b.med.GetOr(0))
    || (forall a, b :: a in cs && b in cs ==> a.asPath.FirstAs() == b.asPath.FirstAs())
  }

  /** With the MED step out of the way, or applied throughout, winning is transitive. */
  lemma TransitiveWhenMedUniform(a: BgpPath, b: BgpPath, c: BgpPath)
    requires || a.med.GetOr(0) == b.med.GetOr(0) == c.med.GetOr(0)
             || a.asPath.FirstAs() == b.asPath.FirstAs() == c.asPath.FirstAs()
    requires ComparePaths(a, b).Less? && ComparePaths(b, c).Less?
    ensures ComparePaths(a, c).Less?
  {}

  /** No three paths beat each other in a circle. */
  ghost predicate NoCircle(cs: seq<BgpPath>) {
    forall a, b, c :: a in cs && b in cs && c in cs && ComparePaths(a, b).Less? && ComparePaths(b, c).Less? ==>
      ComparePaths(a, c).Less?
  }

  lemma MedUniformNoCircle(cs: seq<BgpPath>)
    requires MedUniform(cs)
    ensures NoCircle(cs)
  {
    forall a, b, c | a in cs && b in cs && c in cs && ComparePaths(a, b).Less? && ComparePaths(b, c).Less?
      ensures ComparePaths(a, c).Less?
    {
      TransitiveWhenMedUniform(a, b, c);
    }
  }

  lemma {:induction false} NoCircleHasWinner(cs: seq<BgpPath>)
    requires cs != [] && DistinctPeers(cs) && NoCircle(cs)
    ensures BeatsAll(SelectBest(cs).value, cs)
    decreases |cs|
  {
    SelectedIsACandidate(cs);
    if |cs| > 1 {
      var init, last := cs[..|cs| - 1], cs[|cs| - 1];
      NoCircleHasWinner(init);
      var w := SelectBest(init).value;
      ComparisonIsATournament(w, last);
      assert w in cs && last in cs;
      var best := Better(w, last);
      forall c | c in cs && c != best ensures ComparePaths(best, c).Less? {
        if c in init && c != w && best == last {
          assert ComparePaths(last, w).Less? && ComparePaths(w, c).Less?;
        } else if c == last {
          DistinctMembersDiffer(cs, w, last);
        }
      }
    }
  }

  lemma CircleHasNoWinner(a: BgpPath, b: BgpPath, c: BgpPath)
    requires ComparePaths(a, b).Less? && ComparePaths(b, c).Less? && ComparePaths(c, a).Less?
    ensures forall w :: !BeatsAll(w, [a, b, c])
  {
    ComparisonIsATournament(a, b);
    ComparisonIsATournament(b, c);
    ComparisonIsATournament(c, a);
    var ds := [a, b, c];
    assert ds[0] in ds && ds[1] in ds && ds[2] in ds;
  }

  lemma CircleIsAChoice(cs: seq<BgpPath>, a: BgpPath, b: BgpPath, c: BgpPath)
    requires DistinctPeers(cs) && a in cs && b in cs && c in cs
    requires ComparePaths(a, b).Less? && ComparePaths(b, c).Less? && !ComparePaths(a, c).Less?
    ensures DistinctPeers([a, b, c]) && forall w :: !BeatsAll(w, [a, b, c])
  {
    ComparisonIsATournament(a, b);
    ComparisonIsATournament(b, c);
    ComparisonIsATournament(a, c);
    DistinctMembersDiffer(cs, a, b);
    DistinctMembersDiffer(cs, b, c);
    DistinctMembersDiffer(cs, a, c);
    CircleHasNoWinner(a, b, c);
  }

  /** Exactly without a circle does every choice among the paths have an overall winner, so that no order matters. */
  lemma NoCircleIff(cs: seq<BgpPath>)
    requires DistinctPeers(cs)
    ensures NoCircle(cs) <==>
            forall ds :: ds != [] && DistinctPeers(ds) && (forall d :: d in ds ==> d in cs) ==> exists w :: BeatsAll(w, ds)
  {
    if NoCircle(cs) {
      forall ds | ds != [] && DistinctPeers(ds) && (forall d :: d in ds ==> d in cs) ensures exists w :: BeatsAll(w, ds) {
        NoCircleHasWinner(ds);
      }
    } else {
      var a, b, c :| a in cs && b in cs && c in cs && ComparePaths(a, b).Less? && ComparePaths(b, c).Less? && !ComparePaths(a, c).Less?;
      CircleIsAChoice(cs, a, b, c);
      var ds := [a, b, c];
      assert ds != [] && DistinctPeers(ds) && forall d :: d in ds ==> d in cs;
    }
  }

  /** Equal MEDs, or one neighbouring AS: no circle, hence an overall winner. */
  lemma UniformMedHasWinner(cs: seq<BgpPath>)
    requires cs != [] && DistinctPeers(cs) && MedUniform(cs)
    ensures BeatsAll(SelectBest(cs).value, cs)
  {
    MedUniformNoCircle(cs);
    NoCircleHasWinner(cs);
  }

  /** All MEDs equal, or all from one neighbouring AS: the order of the list is irrelevant. */
  lemma UniformMedIsOrderFree(cs: seq<BgpPath>, ds: seq<BgpPath>)
    requires DistinctPeers(cs) && MedUniform(cs) && Permutation(ds, cs)
    ensures SelectBest(ds) == SelectBest(cs)
  {
    if cs == [] {
      assert |multiset(ds)| == |multiset(cs)|;
    } else {
      UniformMedHasWinner(cs);
      OrderFreeIffPairwiseWinner(cs);
    }
  }

  function Example(peer: Address, firstAs: U32, med: U32): BgpPath {
    BgpPath(Prefix(0x0A1E_0000, 24), Ebgp, peer, firstAs, peer, Igp, AsPath([Segment(AsSequence, [firstAs])]),
            peer, Some(med), 100, false, None, [], false, 0)
  }

  lemma SelectOfThree(a: BgpPath, b: BgpPath, c: BgpPath)
    ensures SelectBest([a, b, c]) == Some(Better(Better(a, b), c))
  {
    assert [a, b, c][..2] == [a, b] && [a, b][..1] == [a];
    assert SelectBest([a, b]) == Some(Better(a, b));
  }

  lemma OneAsPath(asn: U32)
    ensures var p := AsPath([Segment(AsSequence, [asn])]); p.Length() == 1 && p.FirstAs() == Some(asn)
  {
    var segments := [Segment(AsSequence, [asn])];
    assert segments[1..] == [] && SegmentsLength(segments[1..]) == 0;
  }

  lemma ExampleComparison(peer: Address, firstAs: U32, med: U32, peer': Address, firstAs': U32, med': U32)
    ensures ComparePaths(Example(peer, firstAs, med), Example(peer', firstAs', med')) ==
              (if firstAs == firstAs' then Cmp(med, med') else Equal).Then(Cmp(peer, peer'))
  {
    OneAsPath(firstAs);
    OneAsPath(firstAs');
  }

  /** Three paths that beat each other in a circle: the listing order picks the winner. */
  lemma MedMakesOrderMatter(a: BgpPath, b: BgpPath, c: BgpPath)
    requires a == Example(1, 65002, 10) && b == Example(3, 65002, 5) && c == Example(2, 65003, 0)
    ensures ComparePaths(b, a).Less? && ComparePaths(c, b).Less? && ComparePaths(a, c).Less?
    ensures Permutation([a, b, c], [b, c, a])
    ensures SelectBest([a, b, c]) == Some(c) && SelectBest([b, c, a]) == Some(a)
  {
    ExampleComparison(3, 65002, 5, 1, 65002, 10);
    ExampleComparison(2, 65003, 0, 3, 65002, 5);
    ExampleComparison(1, 65002, 10, 2, 65003, 0);
    SelectOfThree(a, b, c);
    SelectOfThree(b, c, a);
  }

  // ------------------------------------------------- direct before reflected

  /** One hop between two speakers: export by one, import by the other. */
  datatype Hop = Hop(sender: Identity, toPeer: PeerConfig, receiver: Identity, fromPeer: PeerConfig,
                     fourOctetAs: bool, now: nat)
  {
    ghost predicate InternalWithoutPolicy() {
      && toPeer.remoteAs == receiver.localAs && fromPeer.remoteAs == sender.localAs
      && sender.localAs == receiver.localAs
      && (forall p :: toPeer.exportPolicy(p) == Permitted(None, None))
      && (forall p :: fromPeer.importPolicy(p) == Permitted(None, None))
    }
  }

  function Relay(h: Hop, p: BgpPath): Option<BgpPath> {
    match ExportRoute(h.sender, h.toPeer, p.prefix, p)
    case None => None
    case Some(route) =>
      var attrs := AttributesFor(route, h.fourOctetAs);
      if !CheckAttributes(h.receiver, h.fromPeer, attrs).Usable? then None
      else
        var e := ImportPrefix(h.receiver, h.fromPeer, Some(h.sender.routerId), attrs, p.prefix, h.now);
        if e.Install? then Some(e.path) else None
  }

  function RelayAll(hops: seq<Hop>, p: BgpPath): Option<BgpPath> {
    if hops == [] then Some(p)
    else
      match Relay(hops[0], p)
      case None => None
      case Some(q) => RelayAll(hops[1..], q)
  }

  ghost predicate SameUpToReflection(a: BgpPath, b: BgpPath) {
    a.source == b.source && a.origin == b.origin && a.asPath == b.asPath && a.med == b.med && a.localPref == b.localPref
  }

  /** A reflected hop changes none of the attributes compared before CLUSTER_LIST. */
  lemma ReflectionPreserves(h: Hop, p: BgpPath)
    requires h.InternalWithoutPolicy() && p.source.Ibgp? && Relay(h, p).Some?
    ensures SameUpToReflection(Relay(h, p).value, p) && Relay(h, p).value.clusterList != []
  {}

  lemma {:induction false} ReflectionChainPreserves(hops: seq<Hop>, p: BgpPath)
    requires forall i :: 0 <= i < |hops| ==> hops[i].InternalWithoutPolicy()
    requires p.source.Ibgp? && RelayAll(hops, p).Some?
    ensures var q := RelayAll(hops, p).value;
            SameUpToReflection(q, p) && (hops != [] || p.clusterList != [] ==> q.clusterList != [])
    decreases |hops|
  {
    if hops != [] {
      ReflectionPreserves(hops[0], p);
      ReflectionChainPreserves(hops[1..], Relay(hops[0], p).value);
    }
  }

  lemma InjectionPreserves(h: Hop, p: BgpPath)
    requires h.InternalWithoutPolicy() && !p.source.Ibgp? && Relay(h, p).Some?
    ensures var q := Relay(h, p).value;
            && q.source.Ibgp? && q.clusterList == []
            && q.origin == p.origin && q.asPath == p.asPath && q.med == p.med && q.localPref == p.localPref
  {}

  /**
   A speaker that hears a route straight from its injector and also through any
   chain of reflectors ranks the direct copy first, whatever the identifiers.
   */
  lemma DirectCopyRanksFirst(injected: BgpPath, toUs: Hop, toReflector: Hop, chain: seq<Hop>)
    requires !injected.source.Ibgp? && chain != []
    requires toUs.InternalWithoutPolicy() && toReflector.InternalWithoutPolicy()
    requires forall i :: 0 <= i < |chain| ==> chain[i].InternalWithoutPolicy()
    requires Relay(toUs, injected).Some? && Relay(toReflector, injected).Some?
    requires RelayAll(chain, Relay(toReflector, injected).value).Some?
    ensures ComparePaths(Relay(toUs, injected).value,
                         RelayAll(chain, Relay(toReflector, injected).value).value).Less?
  {
    InjectionPreserves(toUs, injected);
    InjectionPreserves(toReflector, injected);
    ReflectionChainPreserves(chain, Relay(toReflector, injected).value);
  }
}
