/** Grouping of duplicate images by union-find with path halving
    (src/common/utils/image-dedupe.util.ts). */
module ImageDedupe {
  import opened Options
  import opened ImageHash

  /** `noise` is the cleanliness score of the file name and `nameOrder` its place in the locale order. */
  datatype Candidate = Candidate(
    id: string,
    sha256: string,
    phash: nat,
    groupKey: Option<string>,
    width: int,
    height: int,
    fileSizeBytes: int,
    noise: int,
    nameOrder: int)

  datatype Reason = ExactDuplicate | SameSourceGroup | NearDuplicate | Single

  datatype Cluster = Cluster(chosen: Candidate, members: seq<Candidate>, reason: Reason)

  const NEAR_DUPLICATE_THRESHOLD := 6

  /** An absent or empty key is no hint. */
  predicate HasGroupKey(c: Candidate) { c.groupKey.Some? && c.groupKey.value != "" }

  /** Two candidates that belong together on their own account. */
  predicate Matches(a: Candidate, b: Candidate, threshold: int) {
    || a.sha256 == b.sha256
    || (HasGroupKey(a) && a.groupKey == b.groupKey)
    || (threshold >= 0 && Distance(a.phash, b.phash) <= threshold)
  }

  // ------------------------------------------------------------ the specification: connected components

  /** A sequence of positions whose neighbours match. */
  ghost predicate Chain(cs: seq<Candidate>, threshold: int, path: seq<nat>) {
    && path != []
    && (forall k :: 0 <= k < |path| ==> path[k] < |cs|)
    && (forall k :: 0 < k < |path| ==> Matches(cs[path[k - 1]], cs[path[k]], threshold))
  }

  ghost predicate Joins(path: seq<nat>, i: nat, j: nat) { path != [] && path[0] == i && path[|path| - 1] == j }

  ghost predicate Connected(cs: seq<Candidate>, threshold: int, i: nat, j: nat) {
    exists path :: Chain(cs, threshold, path) && Joins(path, i, j)
  }

  /** `clusters` holds the positions of `cs` grouped by connection: every position once, members and
      clusters in input order. */
  ghost predicate Clustering(cs: seq<Candidate>, threshold: int, clusters: seq<seq<nat>>) {
    && Partition(|cs|, clusters)
    && (forall k, x, l, y :: 0 <= k < |clusters| && 0 <= x < |clusters[k]| && 0 <= l < |clusters| && 0 <= y < |clusters[l]| ==>
          (k == l <==> Connected(cs, threshold, clusters[k][x], clusters[l][y])))
  }

  /** Every number below `n` lies in a cluster, and clusters and their members follow the order of
      the numbers. */
  ghost predicate Partition(n: nat, clusters: seq<seq<nat>>) {
    && (forall k :: 0 <= k < |clusters| ==> clusters[k] != [] && Ascending(clusters[k]))
    && (forall k, x :: 0 <= k < |clusters| && 0 <= x < |clusters[k]| ==> clusters[k][x] < n)
    && (forall i: nat :: i < n ==> InSome(clusters, i))
    && (forall k, l :: 0 <= k < l < |clusters| ==> clusters[k][0] < clusters[l][0])
  }

  ghost predicate InSome(clusters: seq<seq<nat>>, i: nat) { exists k :: 0 <= k < |clusters| && i in clusters[k] }

  ghost predicate Ascending(s: seq<nat>) { forall x, y :: 0 <= x < y < |s| ==> s[x] < s[y] }

  // ------------------------------------------------------------ union-find

  /** Ranks grow towards the roots, and `rep` names the root of the position's tree. */
  ghost predicate Node(parent: seq<nat>, rank: seq<nat>, rep: seq<nat>, top: nat, i: nat)
    requires |parent| == |rank| == |rep| && i < |parent|
  {
    && parent[i] < |parent| && rep[i] < |parent| && rank[i] <= top
    && rep[parent[i]] == rep[i]
    && parent[rep[i]] == rep[i]
    && (if parent[i] == i then rep[i] == i else rank[i] < rank[parent[i]])
  }

  /** The parent array is a forest. */
  ghost predicate Forest(parent: seq<nat>, rank: seq<nat>, rep: seq<nat>, top: nat) {
    && |parent| == |rank| == |rep|
    && forall i: nat :: i < |parent| ==> Node(parent, rank, rep, top, i)
  }

  /** Hanging a position below its grandparent keeps every root. */
  lemma {:induction false} HalvingKeepsForest(parent: seq<nat>, rank: seq<nat>, rep: seq<nat>, top: nat, i: nat)
    requires Forest(parent, rank, rep, top) && i < |parent| && parent[i] != i
    ensures parent[i] < |parent| && parent[parent[i]] < |parent| && Forest(parent[i := parent[parent[i]]], rank, rep, top)
    ensures rank[i] < rank[parent[parent[i]]] <= top && rep[parent[parent[i]]] == rep[i]
  {
    assert Node(parent, rank, rep, top, i);
    assert Node(parent, rank, rep, top, parent[i]);
    assert Node(parent, rank, rep, top, parent[parent[i]]);
    var halved := parent[i := parent[parent[i]]];
    forall j: nat | j < |parent| ensures Node(halved, rank, rep, top, j) {
      assert Node(parent, rank, rep, top, j);
    }
  }

  /** Path halving: the walk shortcuts each position it visits to its grandparent; the roots stay. */
  method Find(parent: array<nat>, start: nat, ghost rank: seq<nat>, ghost rep: seq<nat>, ghost top: nat) returns (root: nat)
    requires Forest(parent[..], rank, rep, top) && start < parent.Length
    modifies parent
    ensures Forest(parent[..], rank, rep, top)
    ensures root == rep[start] && root < parent.Length && parent[root] == root
  {
    root := start;
    assert Node(parent[..], rank, rep, top, start);
    while parent[root] != root
      invariant root < parent.Length && rep[root] == rep[start] && rank[root] <= top
      invariant Forest(parent[..], rank, rep, top)
      decreases top - rank[root]
    {
      ghost var before := parent[..];
      HalvingKeepsForest(before, rank, rep, top, root);
      assert Node(before, rank, rep, top, before[root]);
      parent[root] := parent[parent[root]];
      assert parent[..] == before[root := before[before[root]]];
      root := parent[root];
    }
    assert Node(parent[..], rank, rep, top, root);
  }

  ghost function Merged(rep: seq<nat>, from: nat, into: nat): (merged: seq<nat>)
    ensures |merged| == |rep|
    ensures forall i :: 0 <= i < |rep| ==> merged[i] == if rep[i] == from then into else rep[i]
  {
    seq(|rep|, i requires 0 <= i < |rep| => if rep[i] == from then into else rep[i])
  }

  /** Hanging one root below another merges exactly their two trees. */
  lemma {:induction false} LinkingKeepsForest(parent: seq<nat>, rank: seq<nat>, rep: seq<nat>, top: nat, a: nat, b: nat)
    requires Forest(parent, rank, rep, top) && a < |parent| && b < |parent| && a != b
    requires parent[a] == a && parent[b] == b
    ensures Forest(parent[a := b], rank[b := rank[a] + rank[b] + 1], Merged(rep, a, b), rank[a] + rank[b] + top + 1)
  {
    assert Node(parent, rank, rep, top, a);
    assert Node(parent, rank, rep, top, b);
    var linked, raised, merged := parent[a := b], rank[b := rank[a] + rank[b] + 1], Merged(rep, a, b);
    var newTop := rank[a] + rank[b] + top + 1;
    forall i: nat | i < |linked| ensures Node(linked, raised, merged, newTop, i) {
      assert Node(parent, rank, rep, top, i);
    }
  }

  method Union(parent: array<nat>, a: nat, b: nat, ghost rank: seq<nat>, ghost rep: seq<nat>, ghost top: nat)
    returns (ghost rank': seq<nat>, ghost rep': seq<nat>, ghost top': nat)
    requires Forest(parent[..], rank, rep, top) && a < parent.Length && b < parent.Length
    modifies parent
    ensures Forest(parent[..], rank', rep', top')
    ensures rep' == Merged(rep, rep[a], rep[b])
  {
    assert Node(parent[..], rank, rep, top, a);
    var rootA := Find(parent, a, rank, rep, top);
    assert Node(parent[..], rank, rep, top, rootA);
    var rootB := Find(parent, b, rank, rep, top);
    rank', rep', top' := rank, rep, top;
    if rootA != rootB {
      assert Node(parent[..], rank, rep, top, rootA);
      ghost var before := parent[..];
      LinkingKeepsForest(before, rank, rep, top, rootA, rootB);
      parent[rootA] := rootB;
      assert parent[..] == before[rootA := rootB];
      rep' := Merged(rep, rootA, rootB);
      rank', top' := rank[rootB := rank[rootA] + rank[rootB] + 1], rank[rootA] + rank[rootB] + top + 1;
    }
  }

  // ------------------------------------------------------------ the roots are the components

  lemma {:induction false} MatchesSymmetric(a: Candidate, b: Candidate, threshold: int)
    ensures Matches(a, b, threshold) <==> Matches(b, a, threshold)
  {
    DistanceSymmetric(a.phash, b.phash);
  }

  lemma {:induction false} ConnectedToItself(cs: seq<Candidate>, threshold: int, i: nat)
    requires i < |cs|
    ensures Connected(cs, threshold, i, i)
  {
    var path: seq<nat> := [i];
    assert Chain(cs, threshold, path) && Joins(path, i, i);
  }

  lemma {:induction false} MatchConnects(cs: seq<Candidate>, threshold: int, i: nat, j: nat)
    requires i < |cs| && j < |cs| && Matches(cs[i], cs[j], threshold)
    ensures Connected(cs, threshold, i, j)
  {
    var path: seq<nat> := [i, j];
    assert Chain(cs, threshold, path) && Joins(path, i, j);
  }

  lemma {:induction false} ConnectedSymmetric(cs: seq<Candidate>, threshold: int, i: nat, j: nat)
    requires Connected(cs, threshold, i, j)
    ensures Connected(cs, threshold, j, i)
  {
    var path :| Chain(cs, threshold, path) && Joins(path, i, j);
    var n := |path|;
    var back: seq<nat> := seq(n, k requires 0 <= k < n => path[n - 1 - k]);
    forall k | 0 < k < n ensures Matches(cs[back[k - 1]], cs[back[k]], threshold) {
      assert Matches(cs[path[n - 1 - k]], cs[path[n - k]], threshold);
      MatchesSymmetric(cs[back[k - 1]], cs[back[k]], threshold);
    }
    assert Chain(cs, threshold, back) && Joins(back, j, i);
  }

  lemma {:induction false} ConnectedTransitive(cs: seq<Candidate>, threshold: int, i: nat, j: nat, k: nat)
    requires Connected(cs, threshold, i, j) && Connected(cs, threshold, j, k)
    ensures Connected(cs, threshold, i, k)
  {
    var p :| Chain(cs, threshold, p) && Joins(p, i, j);
    var q :| Chain(cs, threshold, q) && Joins(q, j, k);
    var path := p + q[1..];
    forall x | 0 < x < |path| ensures Matches(cs[path[x - 1]], cs[path[x]], threshold) {
      if x >= |p| {
        assert path[x] == q[x - |p| + 1] && path[x - 1] == q[x - |p|];
      }
    }
    assert Chain(cs, threshold, path) && Joins(path, i, k);
  }

  /** Positions with the same root are connected. */
  ghost predicate Justified(cs: seq<Candidate>, threshold: int, rep: seq<nat>) {
    && |rep| == |cs|
    && forall i: nat, j: nat :: i < |cs| && j < |cs| && rep[i] == rep[j] ==> Connected(cs, threshold, i, j)
  }

  /** Every matching pair before (i, j), in the order of the nested loops, shares its root. */
  ghost predicate Respected(cs: seq<Candidate>, threshold: int, rep: seq<nat>, i: nat, j: nat) {
    && |rep| == |cs|
    && forall a: nat, b: nat :: a < b < |cs| && (a < i || (a == i && b < j)) && Matches(cs[a], cs[b], threshold) ==> rep[a] == rep[b]
  }

  lemma {:induction false} MergingIsJustified(cs: seq<Candidate>, threshold: int, rep: seq<nat>, i: nat, j: nat)
    requires Justified(cs, threshold, rep) && i < |cs| && j < |cs| && Matches(cs[i], cs[j], threshold)
    ensures Justified(cs, threshold, Merged(rep, rep[i], rep[j]))
  {
    var merged := Merged(rep, rep[i], rep[j]);
    MatchConnects(cs, threshold, i, j);
    ConnectedSymmetric(cs, threshold, i, j);
    forall x: nat, y: nat | x < |cs| && y < |cs| && merged[x] == merged[y] ensures Connected(cs, threshold, x, y) {
      if rep[x] != rep[y] {
        if rep[x] == rep[i] {
          ConnectedTransitive(cs, threshold, x, i, j);
          ConnectedTransitive(cs, threshold, x, j, y);
        } else {
          ConnectedTransitive(cs, threshold, x, j, i);
          ConnectedTransitive(cs, threshold, x, i, y);
        }
      }
    }
  }

  lemma {:induction false} ChainSharesRoot(cs: seq<Candidate>, threshold: int, rep: seq<nat>, path: seq<nat>)
    requires Respected(cs, threshold, rep, |cs|, 0) && Chain(cs, threshold, path)
    ensures rep[path[0]] == rep[path[|path| - 1]]
  {
    var n := |path| - 1;
    if n > 0 {
      var shorter := path[..n];
      forall k | 0 < k < n ensures Matches(cs[shorter[k - 1]], cs[shorter[k]], threshold) {
        assert Matches(cs[path[k - 1]], cs[path[k]], threshold);
      }
      ChainSharesRoot(cs, threshold, rep, shorter);
      MatchesSymmetric(cs[path[n - 1]], cs[path[n]], threshold);
      assert Matches(cs[path[n - 1]], cs[path[n]], threshold);
    }
  }

  /** Once every pair is processed, sharing a root is being connected. */
  lemma {:induction false} RootsAreComponents(cs: seq<Candidate>, threshold: int, rep: seq<nat>, i: nat, j: nat)
    requires Justified(cs, threshold, rep) && Respected(cs, threshold, rep, |cs|, 0)
    requires i < |cs| && j < |cs|
    ensures rep[i] == rep[j] <==> Connected(cs, threshold, i, j)
  {
    if Connected(cs, threshold, i, j) {
      var path :| Chain(cs, threshold, path) && Joins(path, i, j);
      ChainSharesRoot(cs, threshold, rep, path);
    }
  }

  /** The pairwise loop: unions every matching pair. */
  method UniteMatches(cs: seq<Candidate>, threshold: int, parent: array<nat>) returns (ghost rank: seq<nat>, ghost rep: seq<nat>, ghost top: nat)
    requires parent.Length == |cs| && forall i :: 0 <= i < |cs| ==> parent[i] == i
    modifies parent
    ensures Forest(parent[..], rank, rep, top)
    ensures Justified(cs, threshold, rep) && Respected(cs, threshold, rep, |cs|, 0)
  {
    rank, rep, top := seq(|cs|, _ => 0), parent[..], 0;
    forall i: nat | i < |cs| ensures Connected(cs, threshold, i, i) {
      ConnectedToItself(cs, threshold, i);
    }
    for i := 0 to |cs|
      invariant Forest(parent[..], rank, rep, top)
      invariant Justified(cs, threshold, rep) && Respected(cs, threshold, rep, i, 0)
    {
      for j := i + 1 to |cs|
        invariant Forest(parent[..], rank, rep, top)
        invariant Justified(cs, threshold, rep) && Respected(cs, threshold, rep, i, j)
      {
        var sameHash := cs[i].sha256 == cs[j].sha256;
        var sameGroup := HasGroupKey(cs[i]) && cs[i].groupKey == cs[j].groupKey;
        var nearHash := false;
        if !sameHash && threshold >= 0 {
          var distance := HammingDistance(cs[i].phash, cs[j].phash);
          nearHash := distance <= threshold;
        }
        if sameHash || sameGroup || nearHash {
          MergingIsJustified(cs, threshold, rep, i, j);
          rank, rep, top := Union(parent, i, j, rank, rep, top);
        }
      }
    }
  }

  // ------------------------------------------------------------ collecting the clusters

  datatype Group = Group(root: nat, members: seq<nat>)

  /** Where the map of groups holds `root`, or its size. */
  function IndexOf(groups: seq<Group>, root: nat): (k: nat)
    ensures k <= |groups|
    ensures k < |groups| ==> groups[k].root == root
    ensures forall l :: 0 <= l < k ==> groups[l].root != root
  {
    if groups == [] || groups[0].root == root then 0 else 1 + IndexOf(groups[1..], root)
  }

  /** The groups hold the first `n` positions under their roots. */
  ghost predicate GroupsOf(rep: seq<nat>, n: nat, groups: seq<Group>)
    requires n <= |rep|
  {
    && Partition(n, MembersOf(groups))
    && (forall k, x :: 0 <= k < |groups| && 0 <= x < |groups[k].members| ==> groups[k].members[x] < n && rep[groups[k].members[x]] == groups[k].root)
    && (forall k, l :: 0 <= k < l < |groups| ==> groups[k].root != groups[l].root)
  }

  function MembersOf(groups: seq<Group>): (members: seq<seq<nat>>)
    ensures |members| == |groups|
    ensures forall k :: 0 <= k < |groups| ==> members[k] == groups[k].members
  {
    seq(|groups|, k requires 0 <= k < |groups| => groups[k].members)
  }

  function AddMember(groups: seq<Group>, root: nat, i: nat): seq<Group> {
    var k := IndexOf(groups, root);
    if k < |groups| then groups[k := Group(root, groups[k].members + [i])] else groups + [Group(root, [i])]
  }

  lemma {:induction false} MoreInSome(clusters: seq<seq<nat>>, after: seq<seq<nat>>, n: nat)
    requires |clusters| <= |after| && forall k :: 0 <= k < |clusters| ==> clusters[k] <= after[k]
    requires forall i: nat :: i < n ==> InSome(clusters, i)
    ensures forall i: nat :: i < n ==> InSome(after, i)
  {
    forall i: nat | i < n ensures InSome(after, i) {
      assert InSome(clusters, i);
      var l :| 0 <= l < |clusters| && i in clusters[l];
      assert i in after[l];
    }
  }

  lemma {:induction false} NextExtends(clusters: seq<seq<nat>>, k: nat, n: nat)
    requires Partition(n, clusters) && k < |clusters|
    ensures Partition(n + 1, clusters[k := clusters[k] + [n]])
  {
    var after := clusters[k := clusters[k] + [n]];
    assert n in after[k];
    MoreInSome(clusters, after, n);
  }

  lemma {:induction false} NextIsNew(clusters: seq<seq<nat>>, n: nat)
    requires Partition(n, clusters)
    ensures Partition(n + 1, clusters + [[n]])
  {
    var after := clusters + [[n]];
    assert n in after[|clusters|];
    MoreInSome(clusters, after, n);
  }

  lemma {:induction false} AddMemberPartitions(groups: seq<Group>, root: nat, i: nat)
    requires Partition(i, MembersOf(groups))
    ensures Partition(i + 1, MembersOf(AddMember(groups, root, i)))
  {
    var k := IndexOf(groups, root);
    var before, after := MembersOf(groups), MembersOf(AddMember(groups, root, i));
    if k < |groups| {
      assert after == before[k := before[k] + [i]];
      NextExtends(before, k, i);
    } else {
      assert after == before + [[i]];
      NextIsNew(before, i);
    }
  }

  lemma {:induction false} AddMemberKeepsGroups(rep: seq<nat>, i: nat, groups: seq<Group>)
    requires i < |rep| && GroupsOf(rep, i, groups)
    ensures GroupsOf(rep, i + 1, AddMember(groups, rep[i], i))
  {
    AddMemberPartitions(groups, rep[i], i);
  }

  /** Groups by root are the clustering by connection. */
  lemma {:induction false} GroupsAreClusters(cs: seq<Candidate>, threshold: int, rep: seq<nat>, groups: seq<Group>)
    requires Justified(cs, threshold, rep) && Respected(cs, threshold, rep, |cs|, 0)
    requires GroupsOf(rep, |cs|, groups)
    ensures Clustering(cs, threshold, MembersOf(groups))
  {
    var clusters := MembersOf(groups);
    forall k, x, l, y | 0 <= k < |clusters| && 0 <= x < |clusters[k]| && 0 <= l < |clusters| && 0 <= y < |clusters[l]|
      ensures k == l <==> Connected(cs, threshold, clusters[k][x], clusters[l][y])
    {
      assert rep[groups[k].members[x]] == groups[k].root && rep[groups[l].members[y]] == groups[l].root;
      RootsAreComponents(cs, threshold, rep, clusters[k][x], clusters[l][y]);
    }
  }

  // ------------------------------------------------------------ the representative and the reason

  function Area(c: Candidate): int { c.width * c.height }

  /** `a` sorts strictly before `b`: larger area, larger file, cleaner name, earlier name. */
  predicate Preferred(a: Candidate, b: Candidate) {
    if Area(a) != Area(b) then Area(a) > Area(b)
    else if a.fileSizeBytes != b.fileSizeBytes then a.fileSizeBytes > b.fileSizeBytes
    else if a.noise != b.noise then a.noise < b.noise
    else a.nameOrder < b.nameOrder
  }

  /** Head of the stable sort: the first member no other is preferred to. */
  function PickBest(members: seq<Candidate>): (best: Candidate)
    requires members != []
    ensures best in members
  {
    var n := |members| - 1;
    if n == 0 then members[0]
    else
      var best := PickBest(members[..n]);
      if Preferred(members[n], best) then members[n] else best
  }

  /** Member `k` is preferred to every earlier member, and no later one is preferred to it. */
  ghost predicate FirstBest(members: seq<Candidate>, k: nat) {
    && k < |members|
    && (forall j :: 0 <= j < k ==> Preferred(members[k], members[j]))
    && (forall j :: k <= j < |members| ==> !Preferred(members[j], members[k]))
  }

  lemma {:induction false} BestIsFirstBest(members: seq<Candidate>) returns (k: nat)
    requires members != []
    ensures FirstBest(members, k) && PickBest(members) == members[k]
  {
    var n := |members| - 1;
    k := 0;
    if n > 0 {
      k := BestIsFirstBest(members[..n]);
      assert forall j :: 0 <= j < n ==> members[..n][j] == members[j];
      if Preferred(members[n], members[k]) {
        k := n;
      }
    }
  }

  function Classify(members: seq<Candidate>): Reason
    requires members != []
  {
    if |members| == 1 then Single
    else if forall m :: m in members ==> m.sha256 == members[0].sha256 then ExactDuplicate
    else if HasGroupKey(members[0]) && forall m :: m in members ==> m.groupKey == members[0].groupKey then SameSourceGroup
    else NearDuplicate
  }

  function CandidatesAt(cs: seq<Candidate>, positions: seq<nat>): (members: seq<Candidate>)
    requires forall x :: 0 <= x < |positions| ==> positions[x] < |cs|
    ensures |members| == |positions|
    ensures forall x :: 0 <= x < |positions| ==> members[x] == cs[positions[x]]
  {
    seq(|positions|, x requires 0 <= x < |positions| => cs[positions[x]])
  }

  /** The clusters report the groups, each with its best member and the reason it was formed. */
  ghost predicate Reports(cs: seq<Candidate>, positions: seq<seq<nat>>, clusters: seq<Cluster>) {
    && |clusters| == |positions|
    && forall k :: 0 <= k < |positions| ==> ReportsOne(cs, positions[k], clusters[k])
  }

  ghost predicate ReportsOne(cs: seq<Candidate>, positions: seq<nat>, cluster: Cluster) {
    && positions != []
    && (forall x :: 0 <= x < |positions| ==> positions[x] < |cs|)
    && cluster.members == CandidatesAt(cs, positions)
    && cluster.chosen == PickBest(cluster.members)
    && cluster.reason == Classify(cluster.members)
  }

  /** The clusters report the connected components of the match relation. */
  ghost predicate Deduplicated(cs: seq<Candidate>, threshold: int, clusters: seq<Cluster>) {
    exists positions :: Clustering(cs, threshold, positions) && Reports(cs, positions, clusters)
  }

  // ------------------------------------------------------------ what a report says, field by field

  /** The `k`-th member has the highest resolution; among those of its resolution the largest file, among those
      the cleanest name, among those the earliest name, and it is the first of its kind. */
  ghost predicate HighestResolution(members: seq<Candidate>, k: nat) {
    k < |members| && forall j: nat :: j < |members| ==>
      var best, m := members[k], members[j];
      && m.width * m.height <= best.width * best.height
      && (m.width * m.height == best.width * best.height ==>
            && m.fileSizeBytes <= best.fileSizeBytes
            && (m.fileSizeBytes == best.fileSizeBytes ==>
                  && m.noise >= best.noise
                  && (m.noise == best.noise ==> m.nameOrder > best.nameOrder || (m.nameOrder == best.nameOrder && j >= k))))
  }

  ghost predicate SameFile(members: seq<Candidate>) {
    forall m, n :: m in members && n in members ==> m.sha256 == n.sha256
  }

  ghost predicate SameSource(members: seq<Candidate>) {
    exists key :: key != "" && forall m :: m in members ==> m.groupKey == Some(key)
  }

  /** The reason says the most specific thing that holds of all members. */
  ghost predicate ReasonHolds(members: seq<Candidate>, reason: Reason) {
    && (reason.Single? <==> |members| == 1)
    && (reason.ExactDuplicate? <==> |members| > 1 && SameFile(members))
    && (reason.SameSourceGroup? <==> |members| > 1 && !SameFile(members) && SameSource(members))
    && (reason.NearDuplicate? <==> |members| > 1 && !SameFile(members) && !SameSource(members))
  }

  ghost predicate WellReported(cluster: Cluster) {
    && cluster.members != []
    && (exists k: nat :: HighestResolution(cluster.members, k) && cluster.chosen == cluster.members[k])
    && ReasonHolds(cluster.members, cluster.reason)
  }

  lemma {:induction false} BestHasHighestResolution(members: seq<Candidate>) returns (k: nat)
    requires members != []
    ensures HighestResolution(members, k) && PickBest(members) == members[k]
  {
    var n := |members| - 1;
    k := 0;
    if n > 0 {
      k := BestHasHighestResolution(members[..n]);
      assert forall j :: 0 <= j < n ==> members[..n][j] == members[j];
      if Preferred(members[n], members[k]) {
        k := n;
      }
    }
  }

  lemma {:induction false} ReasonIsMostSpecific(members: seq<Candidate>)
    requires members != []
    ensures ReasonHolds(members, Classify(members))
  {
    assert members[0] in members;
    if SameSource(members) {
      var key :| key != "" && forall m :: m in members ==> m.groupKey == Some(key);
      assert HasGroupKey(members[0]);
    }
    if HasGroupKey(members[0]) && forall m :: m in members ==> m.groupKey == members[0].groupKey {
      assert members[0].groupKey.value != "" && forall m :: m in members ==> m.groupKey == Some(members[0].groupKey.value);
    }
  }

  lemma {:induction false} ClusterIsWellReported(cs: seq<Candidate>, positions: seq<nat>, cluster: Cluster)
    requires ReportsOne(cs, positions, cluster)
    ensures WellReported(cluster)
  {
    var k := BestHasHighestResolution(cluster.members);
    ReasonIsMostSpecific(cluster.members);
  }

  method ReportGroups(cs: seq<Candidate>, groups: seq<Group>) returns (clusters: seq<Cluster>)
    requires forall k :: 0 <= k < |groups| ==> groups[k].members != []
    requires forall k, x :: 0 <= k < |groups| && 0 <= x < |groups[k].members| ==> groups[k].members[x] < |cs|
    ensures |clusters| == |groups| && forall k :: 0 <= k < |groups| ==> ReportsOne(cs, groups[k].members, clusters[k])
    ensures forall k :: 0 <= k < |groups| ==> WellReported(clusters[k])
  {
    clusters := [];
    for k := 0 to |groups|
      invariant |clusters| == k
      invariant forall l :: 0 <= l < k ==> ReportsOne(cs, groups[l].members, clusters[l])
    {
      var members := CandidatesAt(cs, groups[k].members);
      clusters := clusters + [Cluster(PickBest(members), members, Classify(members))];
    }
    forall k | 0 <= k < |groups| ensures WellReported(clusters[k]) {
      ClusterIsWellReported(cs, groups[k].members, clusters[k]);
    }
  }

  method DedupeCandidates(cs: seq<Candidate>, limit: Option<int>) returns (clusters: seq<Cluster>)
    ensures Deduplicated(cs, ValueOr(limit, NEAR_DUPLICATE_THRESHOLD), clusters)
    ensures forall k :: 0 <= k < |clusters| ==> WellReported(clusters[k])
  {
    var threshold := ValueOr(limit, NEAR_DUPLICATE_THRESHOLD);
    var parent := new nat[|cs|](i => i);
    ghost var rank, rep, top := UniteMatches(cs, threshold, parent);

    var groups := [];
    for i := 0 to |cs|
      invariant Forest(parent[..], rank, rep, top)
      invariant GroupsOf(rep, i, groups)
    {
      AddMemberKeepsGroups(rep, i, groups);
      var root := Find(parent, i, rank, rep, top);
      groups := AddMember(groups, root, i);
    }
    GroupsAreClusters(cs, threshold, rep, groups);

    ghost var positions := MembersOf(groups);
    assert forall k :: 0 <= k < |groups| ==> positions[k] != [];
    clusters := ReportGroups(cs, groups);
  }

  // ------------------------------------------------------------ what the clusters are

  /** The two positions lie in one cluster. */
  ghost predicate Together(clusters: seq<seq<nat>>, i: nat, j: nat) {
    exists k :: 0 <= k < |clusters| && i in clusters[k] && j in clusters[k]
  }

  lemma {:induction false} Locate(n: nat, clusters: seq<seq<nat>>, i: nat) returns (k: nat, x: nat)
    requires Partition(n, clusters) && i < n
    ensures k < |clusters| && x < |clusters[k]| && clusters[k][x] == i
  {
    assert InSome(clusters, i);
    k :| 0 <= k < |clusters| && i in clusters[k];
    x :| 0 <= x < |clusters[k]| && clusters[k][x] == i;
  }

  lemma {:induction false} ConnectedWithin(cs: seq<Candidate>, threshold: int, clusters: seq<seq<nat>>, k: nat, i: nat, j: nat)
    requires Clustering(cs, threshold, clusters) && k < |clusters| && i in clusters[k]
    ensures j in clusters[k] <==> j < |cs| && Connected(cs, threshold, i, j)
  {
    var x :| 0 <= x < |clusters[k]| && clusters[k][x] == i;
    if j in clusters[k] {
      var y :| 0 <= y < |clusters[k]| && clusters[k][y] == j;
      assert Connected(cs, threshold, clusters[k][x], clusters[k][y]);
    } else if j < |cs| {
      var l, y := Locate(|cs|, clusters, j);
      assert k == l <==> Connected(cs, threshold, clusters[k][x], clusters[l][y]);
    }
  }

  /** Two candidates share a cluster exactly when a chain of matching pairs joins them. */
  lemma {:induction false} TogetherIffConnected(cs: seq<Candidate>, threshold: int, clusters: seq<seq<nat>>, i: nat, j: nat)
    requires Clustering(cs, threshold, clusters) && i < |cs| && j < |cs|
    ensures Together(clusters, i, j) <==> Connected(cs, threshold, i, j)
  {
    var k, x := Locate(|cs|, clusters, i);
    ConnectedWithin(cs, threshold, clusters, k, i, j);
    if Together(clusters, i, j) {
      var m :| 0 <= m < |clusters| && i in clusters[m] && j in clusters[m];
      ConnectedWithin(cs, threshold, clusters, m, i, j);
    }
  }

  /** No candidate is in two clusters, or twice in one. */
  lemma {:induction false} EveryCandidateOnce(cs: seq<Candidate>, threshold: int, clusters: seq<seq<nat>>, k: nat, x: nat, l: nat, y: nat)
    requires Clustering(cs, threshold, clusters)
    requires k < |clusters| && x < |clusters[k]| && l < |clusters| && y < |clusters[l]| && clusters[k][x] == clusters[l][y]
    ensures k == l && x == y
  {
    ConnectedToItself(cs, threshold, clusters[k][x]);
    assert Ascending(clusters[k]);
  }

  lemma {:induction false} AscendingUnique(s: seq<nat>, t: seq<nat>)
    requires Ascending(s) && Ascending(t) && forall i: nat :: i in s <==> i in t
    ensures s == t
  {
    assert s != [] ==> s[0] in t;
    assert t != [] ==> t[0] in s;
    if s != [] {
      var m, n := |s| - 1, |t| - 1;
      assert s[m] in t && t[n] in s;
      assert s[m] == t[n];
      forall i: nat ensures i in s[..m] <==> i in t[..n] {
        assert i in s <==> i in t;
      }
      AscendingUnique(s[..m], t[..n]);
    }
  }

  ghost function Firsts(clusters: seq<seq<nat>>): (firsts: seq<nat>)
    requires forall k :: 0 <= k < |clusters| ==> clusters[k] != []
    ensures |firsts| == |clusters|
    ensures forall k :: 0 <= k < |clusters| ==> firsts[k] == clusters[k][0]
  {
    seq(|clusters|, k requires 0 <= k < |clusters| => clusters[k][0])
  }

  lemma {:induction false} EarlierAreElsewhere(cs: seq<Candidate>, threshold: int, clusters: seq<seq<nat>>, k: nat, j: nat)
    requires Clustering(cs, threshold, clusters) && k < |clusters| && j < clusters[k][0]
    ensures !Connected(cs, threshold, j, clusters[k][0])
  {
    var m, y := Locate(|cs|, clusters, j);
    assert Ascending(clusters[m]);
    assert m == k <==> Connected(cs, threshold, clusters[m][y], clusters[k][0]);
  }

  /** A position opens a cluster exactly when no earlier one is connected to it. */
  lemma {:induction false} FirstsAreLeast(cs: seq<Candidate>, threshold: int, clusters: seq<seq<nat>>, i: nat)
    requires Clustering(cs, threshold, clusters) && i < |cs|
    ensures i in Firsts(clusters) <==> forall j: nat :: j < i ==> !Connected(cs, threshold, j, i)
  {
    if i in Firsts(clusters) {
      var l :| 0 <= l < |clusters| && Firsts(clusters)[l] == i;
      forall j: nat | j < i ensures !Connected(cs, threshold, j, i) {
        EarlierAreElsewhere(cs, threshold, clusters, l, j);
      }
    } else {
      var k, x := Locate(|cs|, clusters, i);
      assert Firsts(clusters)[k] == clusters[k][0];
      assert Ascending(clusters[k]);
      assert Connected(cs, threshold, clusters[k][0], clusters[k][x]);
    }
  }

  /** There is only one clustering: the result does not depend on the order of unions or on the
      shape of the forest. */
  lemma {:induction false} ClusteringUnique(cs: seq<Candidate>, threshold: int, a: seq<seq<nat>>, b: seq<seq<nat>>)
    requires Clustering(cs, threshold, a) && Clustering(cs, threshold, b)
    ensures a == b
  {
    forall i: nat ensures i in Firsts(a) <==> i in Firsts(b) {
      if i < |cs| {
        FirstsAreLeast(cs, threshold, a, i);
        FirstsAreLeast(cs, threshold, b, i);
      }
    }
    AscendingUnique(Firsts(a), Firsts(b));
    forall k | 0 <= k < |a| ensures a[k] == b[k] {
      assert Firsts(a)[k] == Firsts(b)[k];
      forall i: nat ensures i in a[k] <==> i in b[k] {
        ConnectedWithin(cs, threshold, a, k, a[k][0], i);
        ConnectedWithin(cs, threshold, b, k, b[k][0], i);
      }
      AscendingUnique(a[k], b[k]);
    }
  }

  /** `ds` is `cs` in another order: position `i` of `cs` is `to[i]` in `ds`, and `from` leads back. */
  ghost predicate Reordered(cs: seq<Candidate>, ds: seq<Candidate>, to: seq<nat>, from: seq<nat>) {
    && |cs| == |ds| == |to| == |from|
    && (forall i :: 0 <= i < |cs| ==> to[i] < |ds| && ds[to[i]] == cs[i] && from[to[i]] == i)
    && (forall i :: 0 <= i < |ds| ==> from[i] < |cs| && cs[from[i]] == ds[i] && to[from[i]] == i)
  }

  lemma {:induction false} ReorderingConnects(cs: seq<Candidate>, ds: seq<Candidate>, to: seq<nat>, from: seq<nat>, threshold: int, i: nat, j: nat)
    requires Reordered(cs, ds, to, from) && i < |cs| && j < |cs| && Connected(cs, threshold, i, j)
    ensures Connected(ds, threshold, to[i], to[j])
  {
    var path :| Chain(cs, threshold, path) && Joins(path, i, j);
    var image: seq<nat> := seq(|path|, k requires 0 <= k < |path| => to[path[k]]);
    forall k | 0 < k < |image| ensures Matches(ds[image[k - 1]], ds[image[k]], threshold) {
      assert Matches(cs[path[k - 1]], cs[path[k]], threshold);
    }
    assert Chain(ds, threshold, image) && Joins(image, to[i], to[j]);
  }

  /** The clusters, as sets of candidates, do not depend on the input order. */
  lemma {:induction false} ClustersIgnoreOrder(cs: seq<Candidate>, ds: seq<Candidate>, to: seq<nat>, from: seq<nat>, threshold: int,
                                               a: seq<seq<nat>>, b: seq<seq<nat>>, i: nat, j: nat)
    requires Reordered(cs, ds, to, from) && i < |cs| && j < |cs|
    requires Clustering(cs, threshold, a) && Clustering(ds, threshold, b)
    ensures Together(a, i, j) <==> Together(b, to[i], to[j])
  {
    TogetherIffConnected(cs, threshold, a, i, j);
    TogetherIffConnected(ds, threshold, b, to[i], to[j]);
    if Connected(cs, threshold, i, j) {
      ReorderingConnects(cs, ds, to, from, threshold, i, j);
    }
    if Connected(ds, threshold, to[i], to[j]) {
      ReorderingConnects(ds, cs, from, to, threshold, to[i], to[j]);
    }
  }

  /** A wider threshold only merges clusters; a negative one leaves hashes and group keys alone. */
  lemma {:induction false} WiderThresholdMerges(cs: seq<Candidate>, narrow: int, wide: int, a: seq<seq<nat>>, b: seq<seq<nat>>, i: nat, j: nat)
    requires narrow <= wide && i < |cs| && j < |cs|
    requires Clustering(cs, narrow, a) && Clustering(cs, wide, b)
    ensures Together(a, i, j) ==> Together(b, i, j)
  {
    TogetherIffConnected(cs, narrow, a, i, j);
    TogetherIffConnected(cs, wide, b, i, j);
    if Connected(cs, narrow, i, j) {
      var path :| Chain(cs, narrow, path) && Joins(path, i, j);
      assert Chain(cs, wide, path);
    }
  }

  /** A single is a candidate no chain joins to another. */
  lemma {:induction false} SinglesAreAlone(cs: seq<Candidate>, threshold: int, positions: seq<seq<nat>>, clusters: seq<Cluster>, k: nat)
    requires Clustering(cs, threshold, positions) && Reports(cs, positions, clusters) && k < |clusters|
    ensures clusters[k].reason.Single?
       <==> forall j: nat :: j < |cs| && j != positions[k][0] ==> !Connected(cs, threshold, positions[k][0], j)
  {
    assert ReportsOne(cs, positions[k], clusters[k]);
    if |positions[k]| > 1 {
      assert Ascending(positions[k]);
      ConnectedWithin(cs, threshold, positions, k, positions[k][0], positions[k][1]);
    } else {
      forall j: nat | j < |cs| && j != positions[k][0] ensures !Connected(cs, threshold, positions[k][0], j) {
        ConnectedWithin(cs, threshold, positions, k, positions[k][0], j);
      }
    }
  }

  /** The pair loops miss no reason to put two candidates together: the same file, the same non-empty group key,
      or, unless switched off by a negative threshold, a close hash. */
  lemma {:induction false} LikenessBindsTogether(cs: seq<Candidate>, threshold: int, positions: seq<seq<nat>>, i: nat, j: nat)
    requires Clustering(cs, threshold, positions) && i < |cs| && j < |cs|
    requires || cs[i].sha256 == cs[j].sha256
             || (exists key :: key != "" && cs[i].groupKey == Some(key) == cs[j].groupKey)
             || (threshold >= 0 && Distance(cs[i].phash, cs[j].phash) <= threshold)
    ensures Together(positions, i, j)
  {
    assert Matches(cs[i], cs[j], threshold);
    assert Chain(cs, threshold, [i, j]) && Joins([i, j], i, j);
    TogetherIffConnected(cs, threshold, positions, i, j);
  }

  /** And nothing else does: whoever shares a cluster with another candidate has one of these reasons to share it
      with some other member. */
  lemma {:induction false} TogetherForAReason(cs: seq<Candidate>, threshold: int, positions: seq<seq<nat>>, i: nat, j: nat)
    requires Clustering(cs, threshold, positions) && i < |cs| && j < |cs| && i != j && Together(positions, i, j)
    ensures exists m: nat ::
      && m < |cs| && m != i && Together(positions, i, m)
      && (|| cs[i].sha256 == cs[m].sha256
          || (exists key :: key != "" && cs[i].groupKey == Some(key) == cs[m].groupKey)
          || (threshold >= 0 && Distance(cs[i].phash, cs[m].phash) <= threshold))
  {
    TogetherIffConnected(cs, threshold, positions, i, j);
    var path :| Chain(cs, threshold, path) && Joins(path, i, j);
    var k := LeavesStart(path, i, j);
    var m := path[k];
    assert Matches(cs[i], cs[m], threshold);
    assert HasGroupKey(cs[i]) ==> cs[i].groupKey == Some(cs[i].groupKey.value);
    assert Chain(cs, threshold, [i, m]) && Joins([i, m], i, m);
    TogetherIffConnected(cs, threshold, positions, i, m);
  }

  /** A path between different positions leaves the first one somewhere. */
  lemma {:induction false} LeavesStart(path: seq<nat>, i: nat, j: nat) returns (k: nat)
    requires Joins(path, i, j) && i != j
    ensures 0 < k < |path| && path[k - 1] == i && path[k] != i
  {
    k := 1;
    while path[k] == i
      invariant 0 < k < |path| && path[k - 1] == i
      decreases |path| - k
    {
      k := k + 1;
    }
  }
}
