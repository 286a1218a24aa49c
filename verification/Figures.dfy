/** Dropping recurring page furniture: greedy clustering of image hashes by Hamming distance. */
module Figures {
  import opened Documents

  const HASH_DISTANCE := 6
  const REPEAT_MIN_PAGES := 3

  // ---------- Hamming distance ----------

  function Xor(a: nat, b: nat): nat
    decreases a + b
  {
    if a == 0 && b == 0 then 0 else (a % 2 + b % 2) % 2 + 2 * Xor(a / 2, b / 2)
  }

  function BitCount(n: nat): nat {
    if n == 0 then 0 else n % 2 + BitCount(n / 2)
  }

  function Distance(a: nat, b: nat): nat {
    BitCount(Xor(a, b))
  }

  lemma DistanceStep(a: nat, b: nat)
    ensures Distance(a, b) == (a % 2 + b % 2) % 2 + Distance(a / 2, b / 2)
  {
    if a == 0 && b == 0 {
    } else {
      var x := Xor(a, b);
      assert x % 2 == (a % 2 + b % 2) % 2 && x / 2 == Xor(a / 2, b / 2);
    }
  }

  lemma {:induction false} DistanceSelf(a: nat)
    ensures Distance(a, a) == 0
  {
    if a > 0 {
      DistanceStep(a, a);
      DistanceSelf(a / 2);
    }
  }

  lemma {:induction false} DistanceSymmetric(a: nat, b: nat)
    ensures Distance(a, b) == Distance(b, a)
    decreases a + b
  {
    if a != 0 || b != 0 {
      DistanceStep(a, b);
      DistanceStep(b, a);
      DistanceSymmetric(a / 2, b / 2);
    }
  }

  lemma {:induction false} DistanceTriangle(a: nat, b: nat, c: nat)
    ensures Distance(a, c) <= Distance(a, b) + Distance(b, c)
    decreases a + b + c
  {
    if a != 0 || b != 0 || c != 0 {
      DistanceStep(a, b);
      DistanceStep(b, c);
      DistanceStep(a, c);
      DistanceTriangle(a / 2, b / 2, c / 2);
    }
  }

  predicate Near(a: nat, b: nat) {
    Distance(a, b) <= HASH_DISTANCE
  }

  // ---------- Clusters ----------

  /** `hash` is the figure's entry in the hash table. */
  datatype Figure = Figure(digest: nat, page: Option<int>, hash: nat)

  datatype Cluster = Cluster(representative: nat, seen: set<Option<int>>)

  /** The index of the first cluster near a hash, or their number. */
  function FirstNear(reps: seq<nat>, hash: nat): (i: nat)
    ensures i <= |reps|
    ensures i < |reps| ==> Near(reps[i], hash)
    ensures forall j :: 0 <= j < i ==> !Near(reps[j], hash)
  {
    if reps == [] then 0 else if Near(reps[0], hash) then 0 else 1 + FirstNear(reps[1..], hash)
  }

  /** The representatives after clustering a list of hashes. */
  function Reps(hashes: seq<nat>): seq<nat> {
    if hashes == [] then []
    else
      var before := Reps(hashes[..|hashes| - 1]);
      var last := hashes[|hashes| - 1];
      if FirstNear(before, last) < |before| then before else before + [last]
  }

  function Hashes(figures: seq<Figure>): seq<nat> {
    seq(|figures|, i requires 0 <= i < |figures| => figures[i].hash)
  }

  /** The pages of the figures whose first near representative is number `c`. */
  ghost function PagesOf(figures: seq<Figure>, reps: seq<nat>, c: nat): set<Option<int>> {
    set f | f in figures && FirstNear(reps, f.hash) == c :: f.page
  }

  function Threshold(pages: nat): nat {
    if 3 * pages / 10 > REPEAT_MIN_PAGES then 3 * pages / 10 else REPEAT_MIN_PAGES
  }

  /** A figure is dropped when its cluster appears on enough pages. */
  ghost predicate Recurs(figures: seq<Figure>, pages: nat, hash: nat) {
    var reps := Reps(Hashes(figures));
    |PagesOf(figures, reps, FirstNear(reps, hash))| >= Threshold(pages)
  }

  ghost function Rule(figures: seq<Figure>, pages: nat): nat -> bool {
    (hash: nat) => Recurs(figures, pages, hash)
  }

  ghost function Kept(figures: seq<Figure>, drops: nat -> bool): seq<Figure> {
    if figures == [] then []
    else
      var last := figures[|figures| - 1];
      Kept(figures[..|figures| - 1], drops) + (if drops(last.hash) then [] else [last])
  }

  ghost predicate BuiltClusters(figures: seq<Figure>, reps: seq<nat>, clusters: seq<Cluster>) {
    |clusters| == |reps|
    && forall c :: 0 <= c < |clusters| ==> clusters[c] == Cluster(reps[c], PagesOf(figures, reps, c))
  }

  ghost predicate BuiltMembership(figures: seq<Figure>, reps: seq<nat>, membership: seq<nat>) {
    |membership| == |figures|
    && forall j :: 0 <= j < |figures| ==> membership[j] == FirstNear(reps, figures[j].hash) < |reps|
  }

  /** The clusters built so far are the representatives with the pages of their figures. */
  ghost predicate Built(figures: seq<Figure>, reps: seq<nat>, clusters: seq<Cluster>, membership: seq<nat>) {
    BuiltClusters(figures, reps, clusters) && BuiltMembership(figures, reps, membership)
  }

  /** One figure joins cluster `index`, or founds it. */
  function Joined(clusters: seq<Cluster>, index: nat, figure: Figure): seq<Cluster> {
    if index < |clusters|
    then clusters[index := clusters[index].(seen := clusters[index].seen + {figure.page})]
    else clusters + [Cluster(figure.hash, {figure.page})]
  }

  method FirstCluster(clusters: seq<Cluster>, hash: nat, ghost reps: seq<nat>) returns (index: nat)
    requires |clusters| == |reps| && forall c :: 0 <= c < |reps| ==> clusters[c].representative == reps[c]
    ensures index == FirstNear(reps, hash)
  {
    index := 0;
    while index < |clusters| && !Near(clusters[index].representative, hash)
      invariant index <= |clusters|
      invariant forall j :: 0 <= j < index ==> !Near(reps[j], hash)
    {
      index := index + 1;
    }
  }

  method BuildClusters(figures: seq<Figure>) returns (clusters: seq<Cluster>, membership: seq<nat>)
    ensures Built(figures, Reps(Hashes(figures)), clusters, membership)
  {
    clusters, membership := [], [];
    ghost var reps: seq<nat> := [];
    for i := 0 to |figures|
      invariant reps == Reps(Hashes(figures[..i]))
      invariant Built(figures[..i], reps, clusters, membership)
    {
      var figure := figures[i];
      var index := FirstCluster(clusters, figure.hash, reps);
      AddNext(figures, i, reps, clusters, membership);
      if index < |clusters| {
        var cluster := clusters[index];
        clusters := clusters[index := cluster.(seen := cluster.seen + {figure.page})];
      } else {
        clusters := clusters + [Cluster(figure.hash, {figure.page})];
      }
      membership := membership + [index];
      reps := Grown(reps, figure.hash);
    }
    assert figures[..|figures|] == figures;
  }

  method DropRecurring(figures: seq<Figure>, pages: nat) returns (kept: seq<Figure>)
    ensures kept == Kept(figures, Rule(figures, pages))
  {
    var threshold := Threshold(pages);
    var clusters, membership := BuildClusters(figures);
    kept := [];
    for i := 0 to |figures|
      invariant kept == Kept(figures[..i], Rule(figures, pages))
    {
      assert figures[..i + 1][..i] == figures[..i];
      assert Rule(figures, pages)(figures[i].hash) <==> |clusters[membership[i]].seen| >= threshold;
      if |clusters[membership[i]].seen| < threshold {
        kept := kept + [figures[i]];
      }
    }
    assert figures[..|figures|] == figures;
  }

  lemma AddNext(figures: seq<Figure>, i: nat, reps: seq<nat>, clusters: seq<Cluster>, membership: seq<nat>)
    requires i < |figures| && reps == Reps(Hashes(figures[..i]))
    requires Built(figures[..i], reps, clusters, membership)
    ensures var hash := figures[i].hash;
            var index := FirstNear(reps, hash);
      && Grown(reps, hash) == Reps(Hashes(figures[..i + 1]))
      && Built(figures[..i + 1], Grown(reps, hash), Joined(clusters, index, figures[i]), membership + [index])
  {
    AddReps(figures[..i], figures[i]);
    AddBuilt(figures[..i], figures[i], reps, clusters, membership);
    assert figures[..i + 1] == figures[..i] + [figures[i]];
  }

  lemma AddBuilt(figures: seq<Figure>, figure: Figure, reps: seq<nat>, clusters: seq<Cluster>, membership: seq<nat>)
    requires Built(figures, reps, clusters, membership)
    ensures var index := FirstNear(reps, figure.hash);
      Built(figures + [figure], Grown(reps, figure.hash), Joined(clusters, index, figure), membership + [index])
  {
    var index := FirstNear(reps, figure.hash);
    var reps' := Grown(reps, figure.hash);
    forall f | f in figures ensures FirstNear(reps, f.hash) < |reps| {
      var j :| 0 <= j < |figures| && figures[j] == f;
    }
    GrownNear(figures, figure, reps);
    AddMembership(figures, figure, reps, reps', membership);
    forall c | 0 <= c < |reps'|
      ensures PagesOf(figures + [figure], reps', c)
           == PagesOf(figures, reps, c) + (if c == index then {figure.page} else {})
    {
      AddPages(figures, figure, reps, reps', c);
    }
    NoPages(figures, reps);
    AddClusters(figures, figure, reps, clusters, figures + [figure], index);
  }

  lemma AddMembership(figures: seq<Figure>, figure: Figure, reps: seq<nat>, reps': seq<nat>, membership: seq<nat>)
    requires BuiltMembership(figures, reps, membership) && |reps| <= |reps'|
    requires forall f :: f in figures ==> FirstNear(reps', f.hash) == FirstNear(reps, f.hash)
    requires FirstNear(reps', figure.hash) == FirstNear(reps, figure.hash) < |reps'|
    ensures BuiltMembership(figures + [figure], reps', membership + [FirstNear(reps, figure.hash)])
  {
    assert forall j :: 0 <= j < |figures| ==> figures[j] in figures;
  }

  lemma AddClusters(figures: seq<Figure>, figure: Figure, reps: seq<nat>, clusters: seq<Cluster>,
                    more: seq<Figure>, index: nat)
    requires BuiltClusters(figures, reps, clusters)
    requires index == FirstNear(reps, figure.hash) && PagesOf(figures, reps, |reps|) == {}
    requires var reps' := Grown(reps, figure.hash);
      forall c :: 0 <= c < |reps'| ==>
        PagesOf(more, reps', c) == PagesOf(figures, reps, c) + (if c == index then {figure.page} else {})
    ensures BuiltClusters(more, Grown(reps, figure.hash), Joined(clusters, index, figure))
  {
    var reps' := Grown(reps, figure.hash);
    var next := Joined(clusters, index, figure);
    forall c | 0 <= c < |next| ensures next[c] == Cluster(reps'[c], PagesOf(more, reps', c)) {
    }
  }

  lemma {:induction false} NearAppend(reps: seq<nat>, rep: nat, hash: nat)
    ensures FirstNear(reps, hash) < |reps| ==> FirstNear(reps + [rep], hash) == FirstNear(reps, hash)
    ensures FirstNear(reps, hash) == |reps| ==>
              FirstNear(reps + [rep], hash) == if Near(rep, hash) then |reps| else |reps| + 1
  {
    if reps == [] {
      assert [] + [rep] == [rep] && [rep][1..] == [];
    } else {
      assert (reps + [rep])[1..] == reps[1..] + [rep];
      NearAppend(reps[1..], rep, hash);
    }
  }

  /** The representatives once one more hash is clustered. */
  function Grown(reps: seq<nat>, hash: nat): seq<nat> {
    if FirstNear(reps, hash) < |reps| then reps else reps + [hash]
  }

  lemma RepsAppend(hashes: seq<nat>, hash: nat)
    ensures Reps(hashes + [hash]) == Grown(Reps(hashes), hash)
  {
    assert (hashes + [hash])[..|hashes|] == hashes;
  }

  lemma AddReps(figures: seq<Figure>, figure: Figure)
    ensures Reps(Hashes(figures + [figure])) == Grown(Reps(Hashes(figures)), figure.hash)
  {
    assert Hashes(figures + [figure]) == Hashes(figures) + [figure.hash];
    RepsAppend(Hashes(figures), figure.hash);
  }

  lemma GrownNear(figures: seq<Figure>, figure: Figure, reps: seq<nat>)
    requires forall f :: f in figures ==> FirstNear(reps, f.hash) < |reps|
    ensures var reps' := Grown(reps, figure.hash);
      && (forall f :: f in figures ==> FirstNear(reps', f.hash) == FirstNear(reps, f.hash))
      && FirstNear(reps', figure.hash) == FirstNear(reps, figure.hash) < |reps'|
  {
    var reps' := Grown(reps, figure.hash);
    DistanceSelf(figure.hash);
    NearAppend(reps, figure.hash, figure.hash);
    forall f | f in figures ensures FirstNear(reps', f.hash) == FirstNear(reps, f.hash) {
      NearAppend(reps, figure.hash, f.hash);
    }
  }

  lemma AddPages(figures: seq<Figure>, figure: Figure, reps: seq<nat>, reps': seq<nat>, c: nat)
    requires forall f :: f in figures ==> FirstNear(reps', f.hash) == FirstNear(reps, f.hash)
    requires FirstNear(reps', figure.hash) == FirstNear(reps, figure.hash)
    ensures PagesOf(figures + [figure], reps', c)
         == PagesOf(figures, reps, c) + (if c == FirstNear(reps, figure.hash) then {figure.page} else {})
  {
    assert forall f :: f in figures + [figure] <==> f in figures || f == figure;
  }

  lemma NoPages(figures: seq<Figure>, reps: seq<nat>)
    requires forall f :: f in figures ==> FirstNear(reps, f.hash) < |reps|
    ensures PagesOf(figures, reps, |reps|) == {}
  {
  }

  // ---------- What clustering promises ----------

  ghost predicate Far(reps: seq<nat>) {
    forall i, j :: 0 <= i < j < |reps| ==> !Near(reps[i], reps[j])
  }

  ghost predicate Covers(reps: seq<nat>, hashes: seq<nat>) {
    forall h :: h in hashes ==> FirstNear(reps, h) < |reps|
  }

  lemma GrownFar(reps: seq<nat>, hash: nat)
    requires Far(reps)
    ensures Far(Grown(reps, hash))
  {
  }

  lemma GrownCovers(reps: seq<nat>, hashes: seq<nat>, hash: nat)
    requires Covers(reps, hashes)
    ensures Covers(Grown(reps, hash), hashes + [hash])
  {
    DistanceSelf(hash);
    forall h | h in hashes + [hash] ensures FirstNear(Grown(reps, hash), h) < |Grown(reps, hash)| {
      NearAppend(reps, hash, h);
    }
  }

  lemma OwnNear(reps: seq<nat>, i: nat)
    requires Far(reps) && i < |reps|
    ensures FirstNear(reps, reps[i]) == i
  {
    DistanceSelf(reps[i]);
  }

  lemma SpreadStep(hashes: seq<nat>, hash: nat)
    requires Far(Reps(hashes)) && Covers(Reps(hashes), hashes) && forall r :: r in Reps(hashes) ==> r in hashes
    ensures var reps := Reps(hashes + [hash]);
      Far(reps) && Covers(reps, hashes + [hash]) && forall r :: r in reps ==> r in hashes + [hash]
  {
    RepsAppend(hashes, hash);
    GrownFar(Reps(hashes), hash);
    GrownCovers(Reps(hashes), hashes, hash);
  }

  /** Representatives are pairwise far apart, every hash has a near one, and every representative is
      one of the hashes. */
  lemma {:induction false} RepsSpread(hashes: seq<nat>)
    ensures var reps := Reps(hashes);
      && Far(reps) && Covers(reps, hashes)
      && (forall r :: r in reps ==> r in hashes)
      && (forall i :: 0 <= i < |reps| ==> FirstNear(reps, reps[i]) == i)
  {
    if hashes != [] {
      var front, last := hashes[..|hashes| - 1], hashes[|hashes| - 1];
      assert hashes == front + [last];
      RepsSpread(front);
      SpreadStep(front, last);
    }
    forall i | 0 <= i < |Reps(hashes)| ensures FirstNear(Reps(hashes), Reps(hashes)[i]) == i {
      OwnNear(Reps(hashes), i);
    }
  }

  /** In bits: representatives differ in more than 6, and a hash belongs to the first representative
      from which it differs in at most 6. */
  lemma ClustersInBits(hashes: seq<nat>, hash: nat, i: nat, j: nat)
    requires hash in hashes
    ensures var reps, c := Reps(hashes), FirstNear(Reps(hashes), hash);
      && c < |reps| && Distance(reps[c], hash) <= 6
      && (j < c ==> Distance(reps[j], hash) > 6)
      && (i < j < |reps| ==> Distance(reps[i], reps[j]) > 6)
  {
    RepsSpread(hashes);
  }

  /** A figure is dropped exactly when its cluster is on at least three pages and on at least three in
      ten of the document's, rounded down. */
  lemma RecursIff(figures: seq<Figure>, pages: nat, hash: nat)
    ensures var reps := Reps(Hashes(figures));
            var count := |PagesOf(figures, reps, FirstNear(reps, hash))|;
      Recurs(figures, pages, hash) <==> count >= 3 && 10 * (count + 1) > 3 * pages
  {
  }

  /** Two figures of one cluster are within twice the distance of each other. */
  lemma ClusterDiameter(hashes: seq<nat>, a: nat, b: nat)
    requires a in hashes && b in hashes && FirstNear(Reps(hashes), a) == FirstNear(Reps(hashes), b)
    ensures Distance(a, b) <= 12
  {
    RepsSpread(hashes);
    var r := Reps(hashes)[FirstNear(Reps(hashes), a)];
    DistanceSymmetric(r, a);
    DistanceTriangle(a, r, b);
  }

  // ---------- Dropping ----------

  lemma {:induction false} KeptMembers(figures: seq<Figure>, drops: nat -> bool)
    ensures forall f :: f in Kept(figures, drops) <==> f in figures && !drops(f.hash)
  {
    if figures != [] {
      var front, last := figures[..|figures| - 1], figures[|figures| - 1];
      KeptMembers(front, drops);
      assert figures == front + [last];
    }
  }

  ghost predicate IsSubsequence(a: seq<Figure>, b: seq<Figure>) {
    if a == [] then true
    else if b == [] then false
    else if a[|a| - 1] == b[|b| - 1] && IsSubsequence(a[..|a| - 1], b[..|b| - 1]) then true
    else IsSubsequence(a, b[..|b| - 1])
  }

  lemma {:induction false} KeptIsSubsequence(figures: seq<Figure>, drops: nat -> bool)
    ensures IsSubsequence(Kept(figures, drops), figures)
  {
    if figures != [] {
      var front, last := figures[..|figures| - 1], figures[|figures| - 1];
      KeptIsSubsequence(front, drops);
      var kept := Kept(figures, drops);
      if !drops(last.hash) {
        assert kept[..|kept| - 1] == Kept(front, drops);
      } else {
        assert kept == Kept(front, drops);
      }
    }
  }

  /** The result is a subsequence of the input, and clusters are kept or dropped whole. */
  lemma WholeClusters(figures: seq<Figure>, pages: nat, a: Figure, b: Figure)
    requires a in figures && b in figures
    requires FirstNear(Reps(Hashes(figures)), a.hash) == FirstNear(Reps(Hashes(figures)), b.hash)
    ensures var kept := Kept(figures, Rule(figures, pages));
      && IsSubsequence(kept, figures)
      && (a in kept <==> b in kept)
      && (a in kept <==> !Recurs(figures, pages, a.hash))
  {
    KeptIsSubsequence(figures, Rule(figures, pages));
    KeptMembers(figures, Rule(figures, pages));
  }

  // ---------- Idempotence ----------

  ghost function Select(hashes: seq<nat>, drops: nat -> bool): seq<nat> {
    if hashes == [] then []
    else
      var last := hashes[|hashes| - 1];
      Select(hashes[..|hashes| - 1], drops) + (if drops(last) then [] else [last])
  }

  lemma {:induction false} SelectMembers(hashes: seq<nat>, drops: nat -> bool)
    ensures forall h :: h in Select(hashes, drops) <==> h in hashes && !drops(h)
  {
    if hashes != [] {
      var front, last := hashes[..|hashes| - 1], hashes[|hashes| - 1];
      SelectMembers(front, drops);
      assert hashes == front + [last];
    }
  }

  lemma SelectAppend(hashes: seq<nat>, last: nat, drops: nat -> bool)
    ensures Select(hashes + [last], drops) == Select(hashes, drops) + (if drops(last) then [] else [last])
  {
    assert (hashes + [last])[..|hashes|] == hashes;
  }

  /** `drops` decides by cluster: whatever is first near a representative goes with it. */
  ghost predicate ByCluster(final: seq<nat>, drops: nat -> bool) {
    forall h :: FirstNear(final, h) < |final| ==> drops(h) == drops(final[FirstNear(final, h)])
  }

  lemma ByClusterBefore(reps: seq<nat>, hash: nat, drops: nat -> bool)
    requires ByCluster(Grown(reps, hash), drops)
    ensures ByCluster(reps, drops)
  {
    forall h | FirstNear(reps, h) < |reps| ensures drops(h) == drops(reps[FirstNear(reps, h)]) {
      NearAppend(reps, hash, h);
    }
  }

  lemma RepsOfKeptStep(front: seq<nat>, last: nat, drops: nat -> bool)
    requires Reps(Select(front, drops)) == Select(Reps(front), drops)
    requires var i := FirstNear(Reps(front), last); i < |Reps(front)| ==> drops(last) == drops(Reps(front)[i])
    ensures Reps(Select(front + [last], drops)) == Select(Reps(front + [last]), drops)
  {
    SelectGrown(Reps(front), last, drops);
    RepsAppend(front, last);
    SelectAppend(front, last, drops);
    if drops(last) {
      assert Select(front, drops) + [] == Select(front, drops);
    } else {
      RepsAppend(Select(front, drops), last);
    }
  }

  /** Clustering only what is kept gives the representatives that are kept. */
  lemma {:induction false} RepsOfKept(hashes: seq<nat>, drops: nat -> bool)
    requires ByCluster(Reps(hashes), drops)
    ensures Reps(Select(hashes, drops)) == Select(Reps(hashes), drops)
  {
    if hashes != [] {
      var front, last := hashes[..|hashes| - 1], hashes[|hashes| - 1];
      assert hashes == front + [last];
      RepsAppend(front, last);
      ByClusterBefore(Reps(front), last, drops);
      RepsOfKept(front, drops);
      RepsOfKeptStep(front, last, drops);
    }
  }

  lemma SelectGrown(reps: seq<nat>, hash: nat, drops: nat -> bool)
    requires FirstNear(reps, hash) < |reps| ==> drops(hash) == drops(reps[FirstNear(reps, hash)])
    ensures Select(Grown(reps, hash), drops)
         == if drops(hash) then Select(reps, drops) else Grown(Select(reps, drops), hash)
  {
    var i, kept := FirstNear(reps, hash), Select(reps, drops);
    SelectMembers(reps, drops);
    var k := FirstNear(kept, hash);
    if i < |reps| {
      assert !drops(hash) ==> reps[i] in kept;
    } else {
      SelectAppend(reps, hash, drops);
      assert forall r :: r in kept ==> r in reps;
      assert forall r :: r in reps ==> !Near(r, hash);
    }
  }

  lemma FirstNearIs(reps: seq<nat>, hash: nat, k: nat)
    requires k < |reps| && Near(reps[k], hash) && forall j :: 0 <= j < k ==> !Near(reps[j], hash)
    ensures FirstNear(reps, hash) == k
  {
  }

  lemma {:induction false} HashesOfKept(figures: seq<Figure>, drops: nat -> bool)
    ensures Hashes(Kept(figures, drops)) == Select(Hashes(figures), drops)
  {
    if figures != [] {
      var front, last := figures[..|figures| - 1], figures[|figures| - 1];
      HashesOfKept(front, drops);
      assert Hashes(figures)[..|figures| - 1] == Hashes(front);
      assert Hashes(Kept(front, drops) + [last]) == Hashes(Kept(front, drops)) + [last.hash];
    }
  }

  /** In a selection of the representatives that keeps its own, a hash finds the same one. */
  lemma SameRepresentative(reps: seq<nat>, drops: nat -> bool, h: nat)
    requires ByCluster(reps, drops) && FirstNear(reps, h) < |reps| && !drops(h)
    ensures var kept := Select(reps, drops);
      FirstNear(kept, h) < |kept| && kept[FirstNear(kept, h)] == reps[FirstNear(reps, h)]
  {
    var i := FirstNear(reps, h);
    var kept := Select(reps, drops);
    SelectPosition(reps, drops, i);
    var k := SelectIndex(reps, drops, i);
    forall j | 0 <= j < k ensures !Near(kept[j], h) {
      SelectOrigin(reps, drops, i, j);
    }
    FirstNearIs(kept, h, k);
  }

  /** Where element `i`, which is kept, ends up. */
  ghost function SelectIndex(hashes: seq<nat>, drops: nat -> bool, i: nat): nat
    requires i < |hashes|
  {
    |Select(hashes[..i], drops)|
  }

  lemma {:induction false} SelectConcat(a: seq<nat>, b: seq<nat>, drops: nat -> bool)
    ensures Select(a + b, drops) == Select(a, drops) + Select(b, drops)
    decreases |b|
  {
    if b == [] {
      assert a + b == a;
    } else {
      var front, last := b[..|b| - 1], b[|b| - 1];
      SelectConcat(a, front, drops);
      assert a + b == (a + front) + [last];
      SelectAppend(a + front, last, drops);
      SelectAppend(front, last, drops);
      assert b == front + [last];
    }
  }

  lemma SelectPosition(hashes: seq<nat>, drops: nat -> bool, i: nat)
    requires i < |hashes| && !drops(hashes[i])
    ensures var k := SelectIndex(hashes, drops, i);
      k < |Select(hashes, drops)| && Select(hashes, drops)[k] == hashes[i]
  {
    var a, b := hashes[..i], hashes[i + 1..];
    assert hashes == (a + [hashes[i]]) + b;
    SelectConcat(a + [hashes[i]], b, drops);
    SelectAppend(a, hashes[i], drops);
  }

  lemma SelectOrigin(hashes: seq<nat>, drops: nat -> bool, i: nat, j: nat)
    requires i < |hashes| && j < SelectIndex(hashes, drops, i)
    ensures j < |Select(hashes, drops)| && Select(hashes, drops)[j] in hashes[..i]
  {
    assert hashes == hashes[..i] + hashes[i..];
    SelectConcat(hashes[..i], hashes[i..], drops);
    SelectMembers(hashes[..i], drops);
  }

  /** Dropping again, with the same hashes and page count, drops nothing. */
  lemma DroppingIsIdempotent(figures: seq<Figure>, pages: nat)
    ensures var once := Kept(figures, Rule(figures, pages));
      Kept(once, Rule(once, pages)) == once
  {
    var drops := Rule(figures, pages);
    var once := Kept(figures, drops);
    var reps := Reps(Hashes(figures));
    RepsSpread(Hashes(figures));
    assert ByCluster(reps, drops);
    RepsOfKept(Hashes(figures), drops);
    HashesOfKept(figures, drops);
    KeptMembers(figures, drops);
    forall f | f in once ensures !Recurs(once, pages, f.hash) {
      SamePages(figures, once, drops, f);
    }
    NothingHidden(once, Rule(once, pages));
  }

  /** Two kept hashes share a cluster after dropping exactly when they did before. */
  lemma SameCluster(hashes: seq<nat>, once: seq<nat>, drops: nat -> bool, a: nat, b: nat)
    requires a in hashes && b in hashes && !drops(a) && !drops(b)
    requires ByCluster(Reps(hashes), drops) && Reps(once) == Select(Reps(hashes), drops)
    ensures var reps, kept := Reps(hashes), Reps(once);
      FirstNear(kept, a) == FirstNear(kept, b) <==> FirstNear(reps, a) == FirstNear(reps, b)
  {
    RepsSpread(hashes);
    RepsDistinct(Reps(hashes), hashes);
    RepsDistinct(Reps(once), once);
    SameRepresentative(Reps(hashes), drops, a);
    SameRepresentative(Reps(hashes), drops, b);
  }

  lemma PagesAgree(figures: seq<Figure>, once: seq<Figure>, reps: seq<nat>, kept: seq<nat>, i: nat, k: nat)
    requires forall g :: g in once ==> g in figures
    requires forall g :: g in figures && FirstNear(reps, g.hash) == i ==> g in once
    requires forall g :: g in once ==> (FirstNear(kept, g.hash) == k <==> FirstNear(reps, g.hash) == i)
    ensures PagesOf(once, kept, k) == PagesOf(figures, reps, i)
  {
  }

  lemma HashOf(figures: seq<Figure>, g: Figure)
    requires g in figures
    ensures g.hash in Hashes(figures)
  {
    var i :| 0 <= i < |figures| && figures[i] == g;
    assert Hashes(figures)[i] == g.hash;
  }

  lemma SamePages(figures: seq<Figure>, once: seq<Figure>, drops: nat -> bool, f: Figure)
    requires ByCluster(Reps(Hashes(figures)), drops)
    requires Reps(Hashes(once)) == Select(Reps(Hashes(figures)), drops)
    requires forall g :: g in once <==> g in figures && !drops(g.hash)
    requires f in once
    ensures var reps, kept := Reps(Hashes(figures)), Reps(Hashes(once));
      PagesOf(once, kept, FirstNear(kept, f.hash)) == PagesOf(figures, reps, FirstNear(reps, f.hash))
  {
    var hashes := Hashes(figures);
    var reps, kept := Reps(hashes), Reps(Hashes(once));
    RepsSpread(hashes);
    HashOf(figures, f);
    forall g | g in figures && FirstNear(reps, g.hash) == FirstNear(reps, f.hash) ensures g in once {
      HashOf(figures, g);
      assert drops(g.hash) == drops(reps[FirstNear(reps, g.hash)]) == drops(f.hash);
    }
    forall g | g in once
      ensures FirstNear(kept, g.hash) == FirstNear(kept, f.hash) <==> FirstNear(reps, g.hash) == FirstNear(reps, f.hash)
    {
      HashOf(figures, g);
      SameCluster(hashes, Hashes(once), drops, g.hash, f.hash);
    }
    PagesAgree(figures, once, reps, kept, FirstNear(reps, f.hash), FirstNear(kept, f.hash));
  }

  lemma RepsDistinct(reps: seq<nat>, hashes: seq<nat>)
    requires reps == Reps(hashes)
    ensures forall i, j :: 0 <= i < j < |reps| ==> reps[i] != reps[j]
  {
    RepsSpread(hashes);
    forall i, j | 0 <= i < j < |reps| ensures reps[i] != reps[j] {
      DistanceSelf(reps[j]);
    }
  }

  lemma {:induction false} NothingHidden(figures: seq<Figure>, drops: nat -> bool)
    requires forall f :: f in figures ==> !drops(f.hash)
    ensures Kept(figures, drops) == figures
  {
    if figures != [] {
      var front, last := figures[..|figures| - 1], figures[|figures| - 1];
      assert figures == front + [last];
      NothingHidden(front, drops);
    }
  }
}
