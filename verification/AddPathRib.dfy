/**
 The ADD-PATH table (RFC 7911) with its pre-computed backup: several paths per prefix,
 kept in decision order, the first one marked best and the first one with another next
 hop marked as the backup for Prefix Independent Convergence.
 */
module AddPathRib {
  import opened BgpTypes
  import D = Decision

  type PathKey = (Address, U32)

  datatype Entry = Entry(
    pathId: U32, peer: Address, nextHop: Address, asPath: AsPath, origin: Origin,
    localPref: Option<U32>, med: Option<U32>, isBest: bool, isBackup: bool
  ) {
    function Key(): PathKey {
      (peer, pathId)
    }

    /** The entry without its marks. */
    function Bare(): Entry {
      this.(isBest := false, isBackup := false)
    }
  }

  function Compare(a: Entry, b: Entry): D.Ordering {
    D.Cmp(b.localPref.GetOr(100), a.localPref.GetOr(100))
    .Then(D.Cmp(a.asPath.Length(), b.asPath.Length()))
    .Then(D.Cmp(a.origin.Rank(), b.origin.Rank()))
    .Then(D.Cmp(a.med.GetOr(0), b.med.GetOr(0)))
    .Then(D.Cmp(a.peer, b.peer))
    .Then(D.Cmp(a.pathId, b.pathId))
  }

  predicate Less(a: Entry, b: Entry) {
    Compare(a, b).Less?
  }

  /** The local preference, 100 where none is given. */
  function Preference(e: Entry): int {
    if e.localPref.Some? then e.localPref.value else 100
  }

  function MedOf(e: Entry): int {
    if e.med.Some? then e.med.value else 0
  }

  /**
   The documented criteria in their documented order: the higher local preference, the shorter
   path, the lower origin, the lower MED, the lower peer address, the lower path identifier.
   */
  predicate Outranks(a: Entry, b: Entry) {
    if Preference(a) != Preference(b) then Preference(a) > Preference(b)
    else if a.asPath.Length() != b.asPath.Length() then a.asPath.Length() < b.asPath.Length()
    else if a.origin != b.origin then D.OriginRank(a.origin) < D.OriginRank(b.origin)
    else if MedOf(a) != MedOf(b) then MedOf(a) < MedOf(b)
    else if a.peer != b.peer then a.peer < b.peer
    else a.pathId < b.pathId
  }

  lemma LessIffOutranks(a: Entry, b: Entry)
    ensures Less(a, b) <==> Outranks(a, b)
  {}

  lemma Total(a: Entry, b: Entry)
    ensures Less(a, b) || Less(b, a) || a.Key() == b.Key()
    ensures !(Less(a, b) && Less(b, a))
  {}

  lemma Transitive(a: Entry, b: Entry, c: Entry)
    requires Less(a, b) && Less(b, c)
    ensures Less(a, c)
  {}

  lemma MarksDoNotMatter(a: Entry, b: Entry)
    ensures Less(a.Bare(), b.Bare()) == Less(a, b)
  {}

  // ----------------------------------------------------------------- in order

  ghost predicate InOrder(es: seq<Entry>) {
    forall i, j :: 0 <= i < j < |es| ==> Less(es[i], es[j])
  }

  ghost predicate UniqueKeys(es: seq<Entry>) {
    forall i, j :: 0 <= i < j < |es| ==> es[i].Key() != es[j].Key()
  }

  /** The library's stable sort. */
  function InsertInOrder(e: Entry, es: seq<Entry>): seq<Entry> {
    if es == [] || !Less(es[0], e) then [e] + es else [es[0]] + InsertInOrder(e, es[1..])
  }

  function Sort(es: seq<Entry>): seq<Entry> {
    if es == [] then [] else InsertInOrder(es[0], Sort(es[1..]))
  }

  lemma {:induction false} InsertMembers(e: Entry, es: seq<Entry>)
    ensures forall x :: x in InsertInOrder(e, es) <==> x == e || x in es
    decreases |es|
  {
    if es != [] && Less(es[0], e) {
      InsertMembers(e, es[1..]);
      assert es == [es[0]] + es[1..];
    }
  }

  lemma {:induction false} InsertOrdered(e: Entry, es: seq<Entry>)
    requires InOrder(es) && forall x :: x in es ==> x.Key() != e.Key()
    ensures InOrder(InsertInOrder(e, es))
    decreases |es|
  {
    if es == [] {
    } else if Less(es[0], e) {
      InsertOrdered(e, es[1..]);
      InsertMembers(e, es[1..]);
      var rest := InsertInOrder(e, es[1..]);
      forall j | 0 <= j < |rest| ensures Less(es[0], rest[j]) {
        assert rest[j] == e || rest[j] in es[1..];
      }
    } else {
      Total(e, es[0]);
      forall j | 0 <= j < |es| ensures Less(e, es[j]) {
        if j > 0 {
          Transitive(e, es[0], es[j]);
        }
      }
    }
  }

  lemma {:induction false} SortOrders(es: seq<Entry>)
    requires UniqueKeys(es)
    ensures InOrder(Sort(es)) && forall x :: x in Sort(es) <==> x in es
    decreases |es|
  {
    if es != [] {
      SortOrders(es[1..]);
      InsertMembers(es[0], Sort(es[1..]));
      assert es == [es[0]] + es[1..];
      InsertOrdered(es[0], Sort(es[1..]));
    }
  }

  lemma OrderMeansDifferent(es: seq<Entry>)
    requires InOrder(es)
    ensures NoDuplicates(es)
  {
    forall i, j | 0 <= i < j < |es| ensures es[i] != es[j] {
      Total(es[i], es[j]);
    }
  }

  lemma HeadIsMember(es: seq<Entry>)
    ensures es != [] ==> es[0] in es && es[0].Bare() in BareSet(es)
  {}

  /** Only one ordered list holds a given set of entries. */
  lemma {:induction false} OrderIsUnique(es: seq<Entry>, fs: seq<Entry>)
    requires InOrder(es) && InOrder(fs) && forall x :: x in es <==> x in fs
    ensures es == fs
    decreases |es|
  {
    if es == [] {
      HeadIsMember(fs);
    } else {
      assert es[0] in fs;
      assert fs[0] in es;
      HeadIsLeast(es, fs[0]);
      HeadIsLeast(fs, es[0]);
      Total(es[0], fs[0]);
      assert es[0] == fs[0];
      OrderMeansDifferent(es);
      OrderMeansDifferent(fs);
      assert es == [es[0]] + es[1..] && fs == [fs[0]] + fs[1..];
      forall x ensures x in es[1..] <==> x in fs[1..] {
        assert x in es[1..] <==> x in es && x != es[0];
        assert x in fs[1..] <==> x in fs && x != fs[0];
      }
      OrderIsUnique(es[1..], fs[1..]);
    }
  }

  lemma HeadIsLeast(es: seq<Entry>, x: Entry)
    requires InOrder(es) && x in es
    ensures x == es[0] || Less(es[0], x)
  {}

  // ------------------------------------------------------------------ decision

  function Bares(es: seq<Entry>): (r: seq<Entry>)
    ensures |r| == |es| && forall i :: 0 <= i < |es| ==> r[i] == es[i].Bare()
  {
    seq(|es|, i requires 0 <= i < |es| => es[i].Bare())
  }

  /** The first entry at or after `from` through another next hop; the length if there is none. */
  function FirstOther(es: seq<Entry>, from: nat, nextHop: Address): (k: nat)
    requires from <= |es|
    ensures from <= k <= |es|
    ensures forall i :: from <= i < k ==> es[i].nextHop == nextHop
    ensures k < |es| ==> es[k].nextHop != nextHop
    decreases |es| - from
  {
    if from == |es| || es[from].nextHop != nextHop then from else FirstOther(es, from + 1, nextHop)
  }

  function Marked(es: seq<Entry>): (r: seq<Entry>)
    requires es != []
    ensures |r| == |es|
  {
    var k := FirstOther(es, 1, es[0].nextHop);
    seq(|es|, i requires 0 <= i < |es| => es[i].(isBest := i == 0, isBackup := i == k))
  }

  function Decided(es: seq<Entry>): seq<Entry> {
    var sorted := Sort(Bares(es));
    if sorted == [] then [] else Marked(sorted)
  }

  /** Ordered, one entry per key, and marked exactly right. */
  ghost predicate Canonical(es: seq<Entry>) {
    && InOrder(es) && UniqueKeys(es)
    && (forall i :: 0 <= i < |es| ==> (es[i].isBest <==> i == 0))
    && (es != [] ==> forall i :: 0 <= i < |es| ==> (es[i].isBackup <==> i == FirstOther(es, 1, es[0].nextHop)))
  }

  ghost function BareSet(es: seq<Entry>): set<Entry> {
    set i | 0 <= i < |es| :: es[i].Bare()
  }

  lemma {:induction false} FirstOtherBare(es: seq<Entry>, fs: seq<Entry>, from: nat, nextHop: Address)
    requires |es| == |fs| && from <= |es| && forall i :: 0 <= i < |es| ==> es[i].nextHop == fs[i].nextHop
    ensures FirstOther(es, from, nextHop) == FirstOther(fs, from, nextHop)
    decreases |es| - from
  {
    if from < |es| {
      FirstOtherBare(es, fs, from + 1, nextHop);
    }
  }

  lemma SortIsAPermutation(es: seq<Entry>)
    ensures multiset(Sort(es)) == multiset(es)
    decreases |es|
  {
    if es != [] {
      SortIsAPermutation(es[1..]);
      InsertAdds(es[0], Sort(es[1..]));
      assert es == [es[0]] + es[1..];
    }
  }

  lemma InsertAdds(e: Entry, es: seq<Entry>)
    ensures multiset(InsertInOrder(e, es)) == multiset{e} + multiset(es)
    decreases |es|
  {
    if es != [] && Less(es[0], e) {
      InsertAdds(e, es[1..]);
      assert es == [es[0]] + es[1..];
    }
  }

  lemma OrderedKeysUnique(es: seq<Entry>, fs: seq<Entry>)
    requires UniqueKeys(es) && InOrder(fs) && forall x :: x in fs <==> x in es
    ensures UniqueKeys(fs)
  {
    OrderMeansDifferent(fs);
    forall i, j | 0 <= i < j < |fs| ensures fs[i].Key() != fs[j].Key() {
      assert fs[i] in es && fs[j] in es && fs[i] != fs[j];
    }
  }

  /** The decision keeps the entries and brings the list into its canonical form. */
  lemma DecisionIsCanonical(es: seq<Entry>)
    requires UniqueKeys(es)
    ensures Canonical(Decided(es)) && BareSet(Decided(es)) == BareSet(es) && (Decided(es) == [] <==> es == [])
  {
    var bares := Bares(es);
    assert UniqueKeys(bares);
    var sorted := Sort(bares);
    SortOrders(bares);
    OrderedKeysUnique(bares, sorted);
    SortIsAPermutation(bares);
    assert |multiset(sorted)| == |multiset(bares)|;
    if sorted != [] {
      var r := Marked(sorted);
      FirstOtherBare(sorted, r, 1, sorted[0].nextHop);
      MarkedInOrder(sorted);
      SameBares(es, sorted, r);
    }
  }

  /** The entry marked best outranks every other. */
  lemma BestIsPreferred(es: seq<Entry>, x: Entry)
    requires UniqueKeys(es) && x in es
    ensures Decided(es) != [] && Decided(es)[0].isBest
    ensures x.Bare() == Decided(es)[0].Bare() || Outranks(Decided(es)[0], x)
  {
    var ds := Decided(es);
    DecisionIsCanonical(es);
    assert x.Bare() in BareSet(es);
    var i :| 0 <= i < |ds| && ds[i].Bare() == x.Bare();
    assert i > 0 ==> Less(ds[0], ds[i]);
    MarksDoNotMatter(ds[0], x);
    MarksDoNotMatter(ds[0], ds[i]);
    LessIffOutranks(ds[0], x);
  }

  lemma MarkedInOrder(es: seq<Entry>)
    requires es != [] && InOrder(es) && UniqueKeys(es)
    ensures InOrder(Marked(es)) && UniqueKeys(Marked(es))
  {
    var r := Marked(es);
    forall i, j | 0 <= i < j < |r| ensures Less(r[i], r[j]) && r[i].Key() != r[j].Key() {
      assert r[i].Bare() == es[i].Bare() && r[j].Bare() == es[j].Bare();
      MarksDoNotMatter(r[i], r[j]);
      MarksDoNotMatter(es[i], es[j]);
    }
  }

  lemma SameBares(es: seq<Entry>, sorted: seq<Entry>, r: seq<Entry>)
    requires sorted != [] && r == Marked(sorted) && forall x :: x in sorted <==> x in Bares(es)
    ensures BareSet(r) == BareSet(es)
  {
    forall x | x in BareSet(r) ensures x in BareSet(es) {
      var i :| 0 <= i < |r| && r[i].Bare() == x;
      assert sorted[i] in Bares(es);
      var j :| 0 <= j < |es| && Bares(es)[j] == sorted[i];
      assert es[j].Bare() == x;
    }
    forall x | x in BareSet(es) ensures x in BareSet(r) {
      var j :| 0 <= j < |es| && es[j].Bare() == x;
      assert Bares(es)[j] in sorted;
      var i :| 0 <= i < |sorted| && sorted[i] == x;
      assert r[i].Bare() == x;
    }
  }

  /** The stored list depends on the paths alone, not on the order of updates that led to them. */
  lemma HistoryDoesNotMatter(es: seq<Entry>, fs: seq<Entry>)
    requires Canonical(es) && Canonical(fs) && BareSet(es) == BareSet(fs)
    ensures es == fs
  {
    BaresInOrder(es);
    BaresInOrder(fs);
    forall x ensures x in Bares(es) <==> x in Bares(fs) {
      assert x in Bares(es) <==> x in BareSet(es);
      assert x in Bares(fs) <==> x in BareSet(fs);
    }
    OrderIsUnique(Bares(es), Bares(fs));
    if es != [] {
      FirstOtherBare(es, Bares(es), 1, es[0].nextHop);
      FirstOtherBare(fs, Bares(fs), 1, es[0].nextHop);
      forall i | 0 <= i < |es| ensures es[i] == fs[i] {
        assert Bares(es)[i] == Bares(fs)[i];
        assert Bares(es)[0] == Bares(fs)[0];
      }
    }
  }

  lemma BaresInOrder(es: seq<Entry>)
    requires InOrder(es)
    ensures InOrder(Bares(es))
  {
    forall i, j | 0 <= i < j < |es| ensures Less(Bares(es)[i], Bares(es)[j]) {
      MarksDoNotMatter(es[i], es[j]);
    }
  }

  // ------------------------------------------------------------------- updates

  function IndexOf(es: seq<Entry>, key: PathKey): (k: nat)
    ensures k <= |es|
    ensures forall i :: 0 <= i < k ==> es[i].Key() != key
    ensures k < |es| ==> es[k].Key() == key
  {
    if es == [] || es[0].Key() == key then 0 else 1 + IndexOf(es[1..], key)
  }

  /** An entry with the same key is replaced where it stands; a new one goes to the end. */
  function Placed(es: seq<Entry>, e: Entry): seq<Entry> {
    var k := IndexOf(es, e.Key());
    if k < |es| then es[k := e] else es + [e]
  }

  function Put(es: seq<Entry>, e: Entry): seq<Entry> {
    Decided(Placed(es, e))
  }

  function Retain(es: seq<Entry>, key: PathKey): seq<Entry> {
    if es == [] then [] else (if es[0].Key() == key then [] else [es[0]]) + Retain(es[1..], key)
  }

  function Drop(es: seq<Entry>, key: PathKey): seq<Entry> {
    if |Retain(es, key)| < |es| then Decided(Retain(es, key)) else es
  }

  ghost function WithoutKey(s: set<Entry>, key: PathKey): set<Entry> {
    set x | x in s && x.Key() != key
  }

  lemma PlacedBares(es: seq<Entry>, e: Entry)
    requires UniqueKeys(es)
    ensures UniqueKeys(Placed(es, e)) && BareSet(Placed(es, e)) == WithoutKey(BareSet(es), e.Key()) + {e.Bare()}
  {
    var k, fs := IndexOf(es, e.Key()), Placed(es, e);
    assert forall i :: 0 <= i < |es| && i != k ==> fs[i] == es[i] && es[i].Key() != e.Key();
    assert fs[k] == e && fs[k].Bare() == e.Bare();
    forall x | x in BareSet(fs) ensures x in WithoutKey(BareSet(es), e.Key()) + {e.Bare()} {
      var i :| 0 <= i < |fs| && fs[i].Bare() == x;
      assert i != k ==> es[i].Bare() == x;
    }
    forall x | x in WithoutKey(BareSet(es), e.Key()) ensures x in BareSet(fs) {
      var i :| 0 <= i < |es| && es[i].Bare() == x;
      assert es[i].Key() == x.Key();
      assert fs[i].Bare() == x;
    }
  }

  lemma PutEffect(es: seq<Entry>, e: Entry)
    requires Canonical(es)
    ensures Canonical(Put(es, e)) && Put(es, e) != []
    ensures BareSet(Put(es, e)) == WithoutKey(BareSet(es), e.Key()) + {e.Bare()}
  {
    PlacedBares(es, e);
    DecisionIsCanonical(Placed(es, e));
  }

  lemma {:induction false} RetainMembers(es: seq<Entry>, key: PathKey)
    ensures forall x :: x in Retain(es, key) <==> x in es && x.Key() != key
    ensures UniqueKeys(es) ==> UniqueKeys(Retain(es, key))
    ensures |Retain(es, key)| <= |es|
    ensures |Retain(es, key)| == |es| <==> Retain(es, key) == es
    decreases |es|
  {
    if es != [] {
      RetainMembers(es[1..], key);
      assert es == [es[0]] + es[1..];
      if UniqueKeys(es) {
        assert UniqueKeys(es[1..]);
        assert forall x :: x in Retain(es[1..], key) ==> x in es[1..];
      }
    }
  }

  lemma RetainBares(es: seq<Entry>, key: PathKey)
    ensures BareSet(Retain(es, key)) == WithoutKey(BareSet(es), key)
  {
    var fs := Retain(es, key);
    RetainMembers(es, key);
    forall x | x in BareSet(fs) ensures x in WithoutKey(BareSet(es), key) {
      var i :| 0 <= i < |fs| && fs[i].Bare() == x;
      assert fs[i] in es;
    }
    forall x | x in WithoutKey(BareSet(es), key) ensures x in BareSet(fs) {
      var i :| 0 <= i < |es| && es[i].Bare() == x;
      assert es[i] in fs;
    }
  }

  lemma DropEffect(es: seq<Entry>, key: PathKey)
    requires Canonical(es)
    ensures Canonical(Drop(es, key)) && BareSet(Drop(es, key)) == WithoutKey(BareSet(es), key)
  {
    RetainMembers(es, key);
    RetainBares(es, key);
    DecisionIsCanonical(Retain(es, key));
  }

  // ------------------------------------------------------------------ failover

  /** Primary next hop and, when one is marked, the backup next hop. */
  function Forwarding(es: seq<Entry>): Option<(Address, Option<Address>)> {
    if es == [] then None
    else
      var k := FirstOther(es, 1, es[0].nextHop);
      Some((es[0].nextHop, if k < |es| then Some(es[k].nextHop) else None))
  }

  function DropAll(es: seq<Entry>, keys: seq<PathKey>): seq<Entry> {
    if keys == [] then es else Drop(DropAll(es, keys[..|keys| - 1]), keys[|keys| - 1])
  }

  ghost function WithoutKeys(s: set<Entry>, keys: seq<PathKey>): set<Entry> {
    set x | x in s && x.Key() !in keys
  }

  lemma {:induction false} DropAllEffect(es: seq<Entry>, keys: seq<PathKey>)
    requires Canonical(es)
    ensures Canonical(DropAll(es, keys)) && BareSet(DropAll(es, keys)) == WithoutKeys(BareSet(es), keys)
    decreases |keys|
  {
    if keys == [] {
      assert WithoutKeys(BareSet(es), keys) == BareSet(es);
    } else {
      var init, last := keys[..|keys| - 1], keys[|keys| - 1];
      DropAllEffect(es, init);
      DropEffect(DropAll(es, init), last);
      assert forall k :: k in keys <==> k in init || k == last;
      assert WithoutKey(WithoutKeys(BareSet(es), init), last) == WithoutKeys(BareSet(es), keys);
    }
  }

  /** `keys` are the paths through the primary next hop, in whatever order. */
  ghost predicate ThroughPrimary(es: seq<Entry>, keys: seq<PathKey>) {
    es != [] && forall i :: 0 <= i < |es| ==> (es[i].Key() in keys <==> es[i].nextHop == es[0].nextHop)
  }

  /**
   When every path through the primary next hop is withdrawn, in any order, the entry
   marked as backup becomes the best one; without a backup nothing is left.
   */
  lemma BackupTakesOver(es: seq<Entry>, keys: seq<PathKey>)
    requires Canonical(es) && ThroughPrimary(es, keys)
    ensures var k := FirstOther(es, 1, es[0].nextHop);
            var r := DropAll(es, keys);
            if k < |es| then es[k].isBackup && r != [] && r[0].isBest && r[0].Bare() == es[k].Bare() else r == []
  {
    var k := FirstOther(es, 1, es[0].nextHop);
    var r := DropAll(es, keys);
    DropAllEffect(es, keys);
    if k == |es| {
      forall x | x in BareSet(es) ensures x.Key() in keys {
        var i :| 0 <= i < |es| && es[i].Bare() == x;
        assert i == 0 || es[i].nextHop == es[0].nextHop;
        assert es[i].Key() == x.Key();
      }
      assert WithoutKeys(BareSet(es), keys) == {};
      HeadIsMember(r);
    } else {
      assert es[k].Key() !in keys;
      assert es[k].Bare() in BareSet(r);
      var j :| 0 <= j < |r| && r[j].Bare() == es[k].Bare();
      assert r[0].Bare() in WithoutKeys(BareSet(es), keys);
      var i :| 0 <= i < |es| && es[i].Bare() == r[0].Bare();
      assert es[i].Key() == r[0].Key();
      assert i >= k;
      MarksDoNotMatter(es[k], es[i]);
      MarksDoNotMatter(r[0], r[j]);
      if i > k && j > 0 {
        Total(es[k].Bare(), es[i].Bare());
      }
    }
  }

  /** The same for the two next hops a forwarding plane asks for. */
  lemma FailoverIsPredicted(es: seq<Entry>, keys: seq<PathKey>)
    requires Canonical(es) && ThroughPrimary(es, keys)
    ensures var before, after := Forwarding(es).value, Forwarding(DropAll(es, keys));
            if before.1.Some? then after.Some? && after.value.0 == before.1.value else after.None?
  {
    BackupTakesOver(es, keys);
  }

  // ---------------------------------------------------------------- step by step

  /** Clears the marks, sorts, marks the first entry, then looks for the first one through another next hop. */
  method RecomputeDecision(es: seq<Entry>) returns (r: seq<Entry>)
    ensures r == Decided(es)
  {
    r := es;
    for i := 0 to |es|
      invariant |r| == |es|
      invariant forall j :: 0 <= j < |es| ==> r[j] == if j < i then es[j].Bare() else es[j]
    {
      r := r[i := r[i].(isBest := false, isBackup := false)];
    }
    assert r == Bares(es);
    r := Sort(r);
    if r == [] {
      return;
    }
    ghost var sorted := r;
    SortedIsBare(es);
    r := r[0 := r[0].(isBest := true)];
    var i := 1;
    while i < |r| && r[i].nextHop == r[0].nextHop
      invariant 1 <= i <= |r|
      invariant FirstOther(sorted, 1, r[0].nextHop) == FirstOther(sorted, i, r[0].nextHop)
    {
      i := i + 1;
    }
    if i < |r| {
      r := r[i := r[i].(isBackup := true)];
    }
    assert r == Marked(sorted);
  }

  lemma SortedIsBare(es: seq<Entry>)
    ensures |Sort(Bares(es))| == |es| && forall i :: 0 <= i < |es| ==> Sort(Bares(es))[i].Bare() == Sort(Bares(es))[i]
  {
    var sorted := Sort(Bares(es));
    SortIsAPermutation(Bares(es));
    assert |multiset(sorted)| == |multiset(Bares(es))|;
    forall i | 0 <= i < |es| ensures sorted[i].Bare() == sorted[i] {
      assert sorted[i] in multiset(sorted);
      assert sorted[i] in Bares(es);
    }
  }

  method Place(es: seq<Entry>, e: Entry) returns (r: seq<Entry>)
    ensures r == Placed(es, e)
  {
    var key := e.Key();
    var k := Find(es, (x: Entry) => x.Key() == key);
    IndexIsFirst(es, key, k);
    r := if k < |es| then es[k := e] else es + [e];
  }

  method PutEntry(es: seq<Entry>, e: Entry) returns (r: seq<Entry>)
    requires Canonical(es)
    ensures r == Put(es, e) && Canonical(r) && r != []
  {
    PutEffect(es, e);
    var placed := Place(es, e);
    r := RecomputeDecision(placed);
  }

  /** Position of the first entry that is wanted. */
  method Find(es: seq<Entry>, wanted: Entry -> bool) returns (k: nat)
    ensures k <= |es| && (forall j :: 0 <= j < k ==> !wanted(es[j])) && (k < |es| ==> wanted(es[k]))
  {
    k := 0;
    while k < |es| && !wanted(es[k])
      invariant 0 <= k <= |es| && forall j :: 0 <= j < k ==> !wanted(es[j])
    {
      k := k + 1;
    }
  }

  lemma IndexIsFirst(es: seq<Entry>, key: PathKey, k: nat)
    requires k <= |es| && (forall j :: 0 <= j < k ==> es[j].Key() != key) && (k < |es| ==> es[k].Key() == key)
    ensures k == IndexOf(es, key)
  {
    var i := IndexOf(es, key);
    assert i < |es| ==> es[i].Key() == key;
  }

  class AddPathTable {
    const maxPaths: nat
    var routes: map<Prefix, seq<Entry>>

    ghost function At(p: Prefix): seq<Entry>
      reads this
    {
      if p in routes then routes[p] else []
    }

    /** Every stored list is non-empty, ordered, duplicate-free and marked exactly right. */
    ghost predicate Valid()
      reads this
    {
      forall p :: p in routes ==> routes[p] != [] && Canonical(routes[p])
    }

    constructor (wanted: nat)
      ensures Valid() && routes == map[] && maxPaths == if wanted > 1 then wanted else 1
    {
      maxPaths := if wanted > 1 then wanted else 1;
      routes := map[];
    }

    /** Adds the path or replaces the one with the same peer and path id. */
    method InsertPath(p: Prefix, e: Entry)
      requires Valid()
      modifies this
      ensures Valid() && routes == old(routes)[p := Put(old(At(p)), e)]
    {
      var list := PutEntry(if p in routes then routes[p] else [], e);
      routes := routes[p := list];
    }

    /** True when there was such a path; a prefix without paths goes. */
    method WithdrawPath(p: Prefix, key: PathKey) returns (found: bool)
      requires Valid()
      modifies this
      ensures Valid() && At(p) == Drop(old(At(p)), key)
      ensures forall q :: q != p ==> (q in routes <==> q in old(routes)) && (q in routes ==> routes[q] == old(routes[q]))
      ensures found <==> exists i :: 0 <= i < |old(At(p))| && old(At(p))[i].Key() == key
    {
      if p !in routes {
        return false;
      }
      ghost var was := routes[p];
      var kept := Retain(routes[p], key);
      DropEffect(was, key);
      RetainMembers(was, key);
      FoundIff(was, key);
      if |kept| == |routes[p]| {
        return false;
      }
      DecisionIsCanonical(kept);
      if kept == [] {
        routes := routes - {p};
      } else {
        var es := RecomputeDecision(kept);
        routes := routes[p := es];
      }
      return true;
    }

    /** Searches for the marks. */
    method GetPicForwarding(p: Prefix) returns (r: Option<(Address, Option<Address>)>)
      requires Valid()
      ensures r == Forwarding(At(p))
    {
      if p !in routes {
        return None;
      }
      var es := routes[p];
      ghost var other := FirstOther(es, 1, es[0].nextHop);
      assert es[0].isBest && (other < |es| ==> es[other].isBackup);
      var i := Find(es, (e: Entry) => e.isBest);
      var k := Find(es, (e: Entry) => e.isBackup);
      return Some((es[i].nextHop, if k < |es| then Some(es[k].nextHop) else None));
    }
  }

  lemma FoundIff(es: seq<Entry>, key: PathKey)
    ensures |Retain(es, key)| < |es| <==> exists i :: 0 <= i < |es| && es[i].Key() == key
  {
    RetainMembers(es, key);
    if i :| 0 <= i < |es| && es[i].Key() == key {
      assert es[i] in es && es[i] !in Retain(es, key);
    } else if es != [] {
      AllRetained(es, key);
    }
  }

  lemma {:induction false} AllRetained(es: seq<Entry>, key: PathKey)
    requires forall i :: 0 <= i < |es| ==> es[i].Key() != key
    ensures Retain(es, key) == es
    decreases |es|
  {
    if es != [] {
      AllRetained(es[1..], key);
    }
  }
}
