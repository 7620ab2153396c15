/** Density clustering of buildings (DBSCAN) with a worklist that grows while
    it is walked. Great-circle distance within the radius is any reflexive and
    symmetric relation. */
module Clustering {
  import opened Numbers

  // Python's None, -1 and a cluster number.
  datatype Label = Unset | Noise | Cluster(id: nat)

  datatype Points = Points(count: nat, near: (int, int) -> bool, minSize: int) {

    // The points within the radius of a point, itself included.
    ghost function Ball(i: int): set<int> {
      set j | 0 <= j < count && near(i, j)
    }

    ghost predicate Core(i: int) {
      0 <= i < count && |Ball(i)| >= minSize
    }

    ghost predicate Proximity() {
      && (forall i :: 0 <= i < count ==> near(i, i))
      && (forall i, j :: 0 <= i < count && 0 <= j < count ==> near(i, j) == near(j, i))
    }

    // A chain of neighbouring core points.
    ghost predicate IsChain(path: seq<int>) {
      && path != []
      && (forall k :: 0 <= k < |path| ==> Core(path[k]))
      && (forall k, l :: 0 <= k < |path| && 0 <= l < |path| && l == k + 1 ==> near(path[k], path[l]))
    }

    ghost predicate Joined(a: int, b: int) {
      exists path :: IsChain(path) && path[0] == a && path[|path| - 1] == b
    }
  }

  // ---------------------------------------------------------------------
  // What a DBSCAN labelling is.

  // One seed per cluster: the smallest core point of that cluster, clusters
  // numbered in the order of their seeds.
  ghost predicate Seeded(g: Points, labels: seq<Label>, seeds: seq<int>)
    requires |labels| == g.count
  {
    && (forall c, d :: 0 <= c < d < |seeds| ==> seeds[c] < seeds[d])
    && (forall c :: 0 <= c < |seeds| ==> g.Core(seeds[c]) && labels[seeds[c]] == Cluster(c))
    && (forall i :: 0 <= i < g.count && labels[i].Cluster? ==>
          labels[i].id < |seeds| && (g.Core(i) ==> seeds[labels[i].id] <= i))
  }

  // The point hangs on a core point of its own cluster, and no core point near
  // it belongs to an earlier cluster.
  ghost predicate Hangs(g: Points, labels: seq<Label>, i: int)
    requires |labels| == g.count && 0 <= i < g.count && labels[i].Cluster?
  {
    && Held(g, labels, i)
    && (forall k :: g.Core(k) && g.near(k, i) && labels[k].Cluster? ==> labels[i].id <= labels[k].id)
  }

  // Core points share a label iff a chain of core points joins them.
  ghost predicate Components(g: Points, labels: seq<Label>)
    requires |labels| == g.count
  {
    forall i, j :: g.Core(i) && g.Core(j) ==> (labels[i] == labels[j] <==> g.Joined(i, j))
  }

  ghost predicate IsDbscan(g: Points, labels: seq<Label>) {
    && |labels| == g.count
    && (forall i :: 0 <= i < g.count ==> labels[i] != Unset)
    && (forall i :: 0 <= i < g.count ==>
          (labels[i] == Noise <==> forall k :: g.Core(k) ==> !g.near(k, i)))
    && Components(g, labels)
    && (forall i :: 0 <= i < g.count && labels[i].Cluster? ==> Hangs(g, labels, i))
    && (exists seeds :: Seeded(g, labels, seeds))
  }

  // ---------------------------------------------------------------------
  // Chains.

  lemma JoinedSelf(g: Points, a: int)
    requires g.Core(a)
    ensures g.Joined(a, a)
  {
    assert g.IsChain([a]);
  }

  lemma JoinedStep(g: Points, a: int, b: int, c: int)
    requires g.Joined(a, b) && g.Core(c) && g.near(b, c)
    ensures g.Joined(a, c)
  {
    var path :| g.IsChain(path) && path[0] == a && path[|path| - 1] == b;
    assert g.IsChain(path + [c]);
  }

  lemma JoinedCores(g: Points, a: int, b: int)
    requires g.Joined(a, b)
    ensures g.Core(a) && g.Core(b)
  {
  }

  lemma {:induction false} ChainReverses(g: Points, path: seq<int>)
    requires g.Proximity() && g.IsChain(path)
    ensures g.Joined(path[|path| - 1], path[0])
  {
    var last := path[|path| - 1];
    if |path| == 1 {
      JoinedSelf(g, last);
    } else {
      ChainReverses(g, path[1..]);
      JoinedStep(g, last, path[1], path[0]);
    }
  }

  lemma JoinedSymmetric(g: Points, a: int, b: int)
    requires g.Proximity() && g.Joined(a, b)
    ensures g.Joined(b, a)
  {
    var path :| g.IsChain(path) && path[0] == a && path[|path| - 1] == b;
    ChainReverses(g, path);
  }

  lemma {:induction false} ChainExtends(g: Points, a: int, path: seq<int>)
    requires g.IsChain(path) && g.Joined(a, path[0])
    ensures g.Joined(a, path[|path| - 1])
  {
    if |path| > 1 {
      JoinedStep(g, a, path[0], path[1]);
      ChainExtends(g, a, path[1..]);
    }
  }

  lemma JoinedTransitive(g: Points, a: int, b: int, c: int)
    requires g.Joined(a, b) && g.Joined(b, c)
    ensures g.Joined(a, c)
  {
    var path :| g.IsChain(path) && path[0] == b && path[|path| - 1] == c;
    ChainExtends(g, a, path);
  }

  // ---------------------------------------------------------------------
  // What the outer loop keeps.

  // Labelled core points have labelled neighbourhoods: core neighbours share
  // the label, no neighbour carries a later one.
  ghost predicate Closed(g: Points, labels: seq<Label>)
    requires |labels| == g.count
  {
    forall i, j :: g.Core(i) && labels[i].Cluster? && 0 <= j < g.count && g.near(i, j) ==>
      labels[j].Cluster? && (g.Core(j) ==> labels[j] == labels[i]) && labels[j].id <= labels[i].id
  }

  ghost predicate Settled(labels: seq<Label>, done: int)
    requires 0 <= done <= |labels|
  {
    forall i :: 0 <= i < done ==> labels[i] != Unset
  }

  ghost predicate NoNoisyCore(g: Points, labels: seq<Label>)
    requires |labels| == g.count
  {
    forall i :: g.Core(i) ==> labels[i] != Noise
  }

  ghost predicate Rooted(g: Points, labels: seq<Label>, seeds: seq<int>)
    requires |labels| == g.count
  {
    forall i :: g.Core(i) && labels[i].Cluster? ==> labels[i].id < |seeds| && g.Joined(seeds[labels[i].id], i)
  }

  ghost predicate Held(g: Points, labels: seq<Label>, i: int)
    requires |labels| == g.count && 0 <= i < g.count
  {
    exists k :: g.Core(k) && g.near(k, i) && labels[k] == labels[i]
  }

  // Border points hang on a core point of their cluster.
  ghost predicate AllHeld(g: Points, labels: seq<Label>)
    requires |labels| == g.count
  {
    forall i :: 0 <= i < g.count && !g.Core(i) && labels[i].Cluster? ==> Held(g, labels, i)
  }

  ghost predicate Partial(g: Points, labels: seq<Label>, seeds: seq<int>, done: int) {
    && |labels| == g.count && 0 <= done <= g.count
    && Settled(labels, done)
    && Seeded(g, labels, seeds)
    && (forall c :: 0 <= c < |seeds| ==> seeds[c] < done)
    && Closed(g, labels)
    && NoNoisyCore(g, labels)
    && Rooted(g, labels, seeds)
    && AllHeld(g, labels)
  }

  lemma {:induction false} ChainKeepsLabel(g: Points, labels: seq<Label>, path: seq<int>)
    requires |labels| == g.count && Closed(g, labels) && g.IsChain(path)
    requires labels[path[0]].Cluster?
    ensures labels[path[|path| - 1]] == labels[path[0]]
  {
    if |path| > 1 {
      assert g.near(path[0], path[1]);
      ChainKeepsLabel(g, labels, path[1..]);
    }
  }

  lemma JoinedKeepsLabel(g: Points, labels: seq<Label>, a: int, b: int)
    requires |labels| == g.count && Closed(g, labels) && g.Joined(a, b) && labels[a].Cluster?
    ensures labels[b] == labels[a]
  {
    var path :| g.IsChain(path) && path[0] == a && path[|path| - 1] == b;
    ChainKeepsLabel(g, labels, path);
  }

  lemma NoiseIsRemote(g: Points, labels: seq<Label>, i: int)
    requires g.Proximity() && |labels| == g.count && 0 <= i < g.count
    requires Settled(labels, g.count) && Closed(g, labels) && NoNoisyCore(g, labels) && AllHeld(g, labels)
    ensures labels[i] == Noise <==> forall k :: g.Core(k) ==> !g.near(k, i)
    ensures labels[i].Cluster? ==> Hangs(g, labels, i)
  {
    if labels[i].Cluster? {
      assert g.near(i, i);
      assert Held(g, labels, i);
    }
  }

  lemma LabelsAreComponents(g: Points, labels: seq<Label>, seeds: seq<int>, i: int, j: int)
    requires g.Proximity() && |labels| == g.count
    requires Settled(labels, g.count) && Closed(g, labels) && NoNoisyCore(g, labels) && Rooted(g, labels, seeds)
    requires g.Core(i) && g.Core(j)
    ensures labels[i] == labels[j] <==> g.Joined(i, j)
  {
    assert labels[i].Cluster? && labels[j].Cluster?;
    if g.Joined(i, j) {
      JoinedKeepsLabel(g, labels, i, j);
    }
    if labels[i] == labels[j] {
      var seed := seeds[labels[i].id];
      JoinedSymmetric(g, seed, i);
      JoinedTransitive(g, i, seed, j);
    }
  }

  lemma CompleteIsDbscan(g: Points, labels: seq<Label>, seeds: seq<int>)
    requires g.Proximity() && Partial(g, labels, seeds, g.count)
    ensures IsDbscan(g, labels)
  {
    forall i | 0 <= i < g.count
      ensures labels[i] == Noise <==> forall k :: g.Core(k) ==> !g.near(k, i)
      ensures labels[i].Cluster? ==> Hangs(g, labels, i)
    {
      NoiseIsRemote(g, labels, i);
    }
    forall i, j | g.Core(i) && g.Core(j)
      ensures labels[i] == labels[j] <==> g.Joined(i, j)
    {
      LabelsAreComponents(g, labels, seeds, i, j);
    }
  }

  // ---------------------------------------------------------------------
  // The worklist.

  function Range(n: nat): (s: set<int>)
    ensures |s| == n && forall i :: i in s <==> 0 <= i < n
  {
    if n == 0 then {} else Range(n - 1) + {n - 1}
  }

  lemma {:induction false} SeqSetSize(s: seq<int>)
    requires Distinct(s)
    ensures |set x | x in s| == |s|
  {
    if s != [] {
      var front, last := s[..|s| - 1], s[|s| - 1];
      SeqSetSize(front);
      assert (set x | x in s) == (set x | x in front) + {last};
    }
  }

  lemma DistinctFits(s: seq<int>, n: nat)
    requires Distinct(s) && forall x :: x in s ==> 0 <= x < n
    ensures |s| <= n
  {
    SeqSetSize(s);
    SubsetOfRange((set x | x in s), n);
  }

  lemma SubsetOfRange(elements: set<int>, n: nat)
    requires forall x :: x in elements ==> 0 <= x < n
    ensures |elements| <= n
  {
    assert Range(n) == elements + (Range(n) - elements);
  }

  // Enough different points within the radius, the point itself among them.
  ghost predicate Crowd(g: Points, i: int, s: seq<int>) {
    && |s| >= g.minSize
    && (forall k, l :: 0 <= k < l < |s| ==> s[k] != s[l])
    && (forall k :: 0 <= k < |s| ==> 0 <= s[k] < g.count && g.near(i, s[k]))
  }

  function NearList(g: Points, i: int, n: nat): (s: seq<int>)
    ensures Distinct(s) && forall j :: j in s <==> 0 <= j < n && g.near(i, j)
  {
    if n == 0 then [] else
      NearList(g, i, n - 1) + if g.near(i, n - 1) then [n - 1] else []
  }

  lemma NearListSize(g: Points, i: int)
    requires g.count >= 0
    ensures |NearList(g, i, g.count)| == |g.Ball(i)|
  {
    var all := NearList(g, i, g.count);
    SeqSetSize(all);
    forall x
      ensures x in (set y | y in all) <==> x in g.Ball(i)
    {
    }
    assert (set y | y in all) == g.Ball(i);
  }

  lemma CrowdFits(g: Points, i: int, s: seq<int>)
    requires Crowd(g, i, s)
    ensures |g.Ball(i)| >= g.minSize
  {
    var members := set x | x in s;
    SeqSetSize(s);
    forall x | x in members
      ensures x in g.Ball(i)
    {
      var k :| 0 <= k < |s| && s[k] == x;
    }
    assert g.Ball(i) == members + (g.Ball(i) - members);
  }

  lemma CrowdOfAll(g: Points, i: int)
    requires g.count >= 0 && |g.Ball(i)| >= g.minSize
    ensures Crowd(g, i, NearList(g, i, g.count))
  {
    var all := NearList(g, i, g.count);
    NearListSize(g, i);
    forall k | 0 <= k < |all|
      ensures 0 <= all[k] < g.count && g.near(i, all[k])
    {
      assert all[k] in all;
    }
  }

  // What makes a core point.
  lemma CoreExact(g: Points, i: int)
    requires g.count >= 0
    ensures g.Core(i) <==> 0 <= i < g.count && exists s :: Crowd(g, i, s)
  {
    if g.Core(i) {
      CrowdOfAll(g, i);
    }
    if exists s :: Crowd(g, i, s) {
      var s :| Crowd(g, i, s);
      CrowdFits(g, i, s);
    }
  }

  // A point's neighbours as a list without repetition.
  ghost predicate Lists(g: Points, i: int, neighbours: seq<int>) {
    && Distinct(neighbours)
    && |neighbours| == |g.Ball(i)|
    && forall j :: j in neighbours <==> 0 <= j < g.count && g.near(i, j)
  }

  method NeighbourList(g: Points, i: int) returns (neighbours: seq<int>)
    ensures Lists(g, i, neighbours)
  {
    neighbours := [];
    for other := 0 to g.count
      invariant Distinct(neighbours)
      invariant forall j :: j in neighbours <==> 0 <= j < other && g.near(i, j)
    {
      if g.near(i, other) {
        neighbours := neighbours + [other];
      }
    }
    SeqSetSize(neighbours);
    assert g.Ball(i) == set x | x in neighbours;
  }

  // Candidates not yet pending join at the end, in order.
  method AddCandidates(pending: seq<int>, pendingSet: set<int>, candidates: seq<int>)
    returns (pending': seq<int>, pendingSet': set<int>)
    requires Distinct(pending) && pendingSet == set x | x in pending
    ensures Distinct(pending') && pendingSet' == set x | x in pending'
    ensures pending <= pending'
    ensures forall x :: x in pending' <==> x in pending || x in candidates
  {
    pending', pendingSet' := pending, pendingSet;
    for i := 0 to |candidates|
      invariant Distinct(pending') && pendingSet' == set x | x in pending'
      invariant pending <= pending'
      invariant forall x :: x in pending' <==> x in pending || x in candidates[..i]
    {
      if candidates[i] !in pendingSet' {
        pending' := pending' + [candidates[i]];
        pendingSet' := pendingSet' + {candidates[i]};
      }
    }
  }

  // A worklist entry lies next to a core point of the new cluster.
  ghost predicate Reached(g: Points, p: int, i: int) {
    exists k :: g.Joined(p, k) && g.near(k, i)
  }

  // The labels after walking a prefix of the worklist.
  ghost predicate Walked(labels: seq<Label>, labels': seq<Label>, p: int, walked: seq<int>, id: nat) {
    && |labels'| == |labels|
    && forall i :: 0 <= i < |labels| ==>
         labels'[i] == if (i == p || i in walked) && !labels[i].Cluster? then Cluster(id) else labels[i]
  }

  // Core points joined to an unlabelled core point are unlabelled.
  lemma UnsetComponent(g: Points, labels: seq<Label>, p: int, k: int)
    requires g.Proximity() && |labels| == g.count && Closed(g, labels)
    requires NoNoisyCore(g, labels)
    requires g.Joined(p, k) && labels[p] == Unset
    ensures labels[k] == Unset
  {
    JoinedCores(g, p, k);
    if labels[k].Cluster? {
      JoinedSymmetric(g, p, k);
      JoinedKeepsLabel(g, labels, k, p);
    }
  }

  ghost predicate AllReached(g: Points, p: int, pending: seq<int>) {
    forall x :: x in pending ==> 0 <= x < g.count && Reached(g, p, x)
  }

  // Neighbours of the core points among `walked` are pending.
  ghost predicate Spread(g: Points, walked: seq<int>, pending: seq<int>) {
    forall i, j :: i in walked && g.Core(i) && 0 <= j < g.count && g.near(i, j) ==> j in pending
  }

  method Expand(g: Points, neighbours: seq<seq<int>>, labels: seq<Label>, ghost seeds: seq<int>, p: int, id: nat)
    returns (labels': seq<Label>)
    requires |neighbours| == g.count && forall i :: 0 <= i < g.count ==> Lists(g, i, neighbours[i])
    requires g.Proximity() && 0 <= p < g.count && Partial(g, labels, seeds, p)
    requires labels[p] == Unset && g.Core(p) && id == |seeds|
    ensures Partial(g, labels', seeds + [p], p + 1)
  {
    var listed;
    labels', listed := Walk(g, neighbours, labels, p, id);
    ExpandedIsPartial(g, labels, labels', seeds, p, listed);
  }

  // The walk over the pending list while it grows.
  method Walk(g: Points, neighbours: seq<seq<int>>, labels: seq<Label>, p: int, id: nat)
    returns (labels': seq<Label>, listed: seq<int>)
    requires |neighbours| == g.count && forall i :: 0 <= i < g.count ==> Lists(g, i, neighbours[i])
    requires g.Proximity() && |labels| == g.count && Closed(g, labels) && NoNoisyCore(g, labels)
    requires g.Core(p) && labels[p] == Unset
    ensures p in listed && AllReached(g, p, listed) && Spread(g, listed, listed)
    ensures Walked(labels, labels', p, listed, id)
  {
    labels' := labels[p := Cluster(id)];
    var pending := neighbours[p];
    var pendingSet := set x | x in pending;
    StartsReached(g, p, pending);
    var next := 0;
    while next < |pending|
      invariant Distinct(pending) && pendingSet == set x | x in pending
      invariant Walking(g, labels, labels', p, id, pending, next)
      decreases g.count - next
    {
      var x := pending[next];
      assert x in pending;
      labels', pending, pendingSet := Visit(g, neighbours[x], labels, labels', p, id, pending, pendingSet, next);
      next := next + 1;
    }
    assert pending[..next] == pending;
    listed := pending;
  }

  // One turn of the loop over the growing list.
  method Visit(g: Points, neighbours: seq<int>, ghost labels: seq<Label>, walked: seq<Label>, ghost p: int, id: nat,
               before: seq<int>, beforeSet: set<int>, next: nat)
    returns (labels': seq<Label>, pending: seq<int>, pendingSet: set<int>)
    requires g.Proximity() && |labels| == g.count && Closed(g, labels) && NoNoisyCore(g, labels)
    requires 0 <= p < g.count && labels[p] == Unset && next < |before|
    requires Distinct(before) && beforeSet == set x | x in before
    requires Walking(g, labels, walked, p, id, before, next)
    requires 0 <= before[next] < g.count && Lists(g, before[next], neighbours)
    ensures before <= pending && Distinct(pending) && pendingSet == set x | x in pending
    ensures Walking(g, labels, labels', p, id, pending, next + 1)
  {
    var x := before[next];
    labels', pending, pendingSet := walked, before, beforeSet;
    if labels'[x] == Unset {
      if |neighbours| >= g.minSize {
        pending, pendingSet := AddCandidates(pending, pendingSet, neighbours);
      }
    }
    ListGrows(g, neighbours, labels, walked, p, id, before, pending, next);
    if labels'[x] == Unset || labels'[x] == Noise {
      labels' := labels'[x := Cluster(id)];
    }
    WalkStep(labels, walked, labels', p, before[..next], x, id);
  }

  // What the walk over the growing list keeps.
  ghost predicate Walking(g: Points, labels: seq<Label>, labels': seq<Label>, p: int, id: nat,
                          pending: seq<int>, next: nat)
  {
    && next <= |pending| <= g.count
    && AllReached(g, p, pending)
    && p in pending && Spread(g, [p], pending) && Spread(g, pending[..next], pending)
    && Walked(labels, labels', p, pending[..next], id)
  }

  lemma WalkStep(labels: seq<Label>, walked: seq<Label>, labels': seq<Label>, p: int, done: seq<int>, x: int, id: nat)
    requires 0 <= x < |labels| && Walked(labels, walked, p, done, id)
    requires labels' == if walked[x].Cluster? then walked else walked[x := Cluster(id)]
    ensures Walked(labels, labels', p, done + [x], id)
  {
  }

  lemma StartsReached(g: Points, p: int, pending: seq<int>)
    requires g.Proximity() && g.Core(p) && Lists(g, p, pending)
    ensures |pending| <= g.count
    ensures p in pending && AllReached(g, p, pending) && Spread(g, [p], pending)
  {
    DistinctFits(pending, g.count);
    JoinedSelf(g, p);
  }

  // One worklist entry keeps what the list promises, whether or not it added candidates.
  lemma ListGrows(g: Points, neighbours: seq<int>, labels: seq<Label>, labels': seq<Label>, p: int, id: nat,
                  before: seq<int>, pending: seq<int>, next: nat)
    requires g.Proximity() && |labels| == g.count && Closed(g, labels) && NoNoisyCore(g, labels)
    requires 0 <= p < g.count && labels[p] == Unset && next < |before| && Distinct(before)
    requires AllReached(g, p, before) && Spread(g, [p], before) && Spread(g, before[..next], before)
    requires Walked(labels, labels', p, before[..next], id) && 0 <= before[next] < g.count
    requires Lists(g, before[next], neighbours)
    requires Distinct(pending) && before <= pending
    requires if labels'[before[next]] == Unset && |neighbours| >= g.minSize
             then forall y :: y in pending <==> y in before || y in neighbours
             else pending == before
    ensures |before| <= |pending| <= g.count && AllReached(g, p, pending)
    ensures Spread(g, [p], pending) && Spread(g, pending[..next + 1], pending)
    ensures pending[..next + 1] == before[..next] + [before[next]]
  {
    var x := before[next];
    assert Reached(g, p, x);
    if g.Core(x) {
      CoreIsUnset(g, labels, p, x);
      if labels'[x] == Unset {
        ReachedGrows(g, p, before, pending, x);
      } else {
        WalkedAgain(labels, labels', p, before, next, id);
      }
    }
    SpreadGrows(g, p, before, pending, next);
    DistinctFits(pending, g.count);
  }

  lemma WalkedAgain(labels: seq<Label>, labels': seq<Label>, p: int, before: seq<int>, next: nat, id: nat)
    requires next < |before| && Distinct(before) && 0 <= before[next] < |labels|
    requires Walked(labels, labels', p, before[..next], id)
    requires labels[before[next]] == Unset && labels'[before[next]] != Unset
    ensures before[next] == p
  {
    assert before[next] !in before[..next];
  }

  lemma SpreadGrows(g: Points, p: int, before: seq<int>, pending: seq<int>, next: nat)
    requires next < |before| && before <= pending
    requires Spread(g, [p], before) && Spread(g, before[..next], before)
    requires g.Core(before[next]) ==> forall j :: 0 <= j < g.count && g.near(before[next], j) ==> j in pending
    ensures Spread(g, [p], pending) && Spread(g, pending[..next + 1], pending)
    ensures pending[..next + 1] == before[..next] + [before[next]]
  {
    assert forall y :: y in before ==> y in pending;
    assert pending[..next + 1] == before[..next] + [before[next]];
  }

  lemma CoreIsUnset(g: Points, labels: seq<Label>, p: int, x: int)
    requires g.Proximity() && |labels| == g.count && Closed(g, labels)
    requires NoNoisyCore(g, labels)
    requires 0 <= p < g.count && labels[p] == Unset && g.Core(x) && Reached(g, p, x)
    ensures labels[x] == Unset && g.Joined(p, x)
  {
    var k :| g.Joined(p, k) && g.near(k, x);
    JoinedStep(g, p, k, x);
    UnsetComponent(g, labels, p, x);
  }

  lemma ReachedGrows(g: Points, p: int, pending: seq<int>, pending': seq<int>, x: int)
    requires pending <= pending' && x in pending && g.Joined(p, x)
    requires AllReached(g, p, pending)
    requires forall y :: y in pending' ==> y in pending || (0 <= y < g.count && g.near(x, y))
    ensures AllReached(g, p, pending')
  {
    forall y | y in pending'
      ensures 0 <= y < g.count && Reached(g, p, y)
    {
    }
  }

  // The listed core points are exactly the new cluster's.
  ghost predicate FreshCores(g: Points, labels: seq<Label>, labels': seq<Label>, p: int, pending: seq<int>, c: nat)
    requires |labels| == |labels'| == g.count
  {
    forall i :: i in pending && g.Core(i) ==>
      labels[i] == Unset && labels'[i] == Cluster(c) && g.Joined(p, i)
  }

  lemma NewCores(g: Points, labels: seq<Label>, labels': seq<Label>, p: int, pending: seq<int>, c: nat)
    requires g.Proximity() && |labels| == g.count && Closed(g, labels) && NoNoisyCore(g, labels)
    requires 0 <= p < g.count && labels[p] == Unset
    requires AllReached(g, p, pending) && Walked(labels, labels', p, pending, c)
    ensures FreshCores(g, labels, labels', p, pending, c)
  {
    forall i | i in pending && g.Core(i)
      ensures labels[i] == Unset && labels'[i] == Cluster(c) && g.Joined(p, i)
    {
      assert Reached(g, p, i);
      CoreIsUnset(g, labels, p, i);
    }
  }

  ghost predicate ClosedAt(g: Points, labels: seq<Label>, i: int, j: int)
    requires |labels| == g.count && 0 <= i < g.count && 0 <= j < g.count && labels[i].Cluster?
  {
    labels[j].Cluster? && (g.Core(j) ==> labels[j] == labels[i]) && labels[j].id <= labels[i].id
  }

  lemma ClosedNew(g: Points, labels: seq<Label>, labels': seq<Label>, p: int, pending: seq<int>, c: nat, i: int, j: int)
    requires |labels| == g.count && 0 <= i < g.count && 0 <= j < g.count
    requires labels[j].Cluster? ==> labels[j].id < c
    requires Walked(labels, labels', p, pending, c) && FreshCores(g, labels, labels', p, pending, c)
    requires g.Core(i) && i in pending && j in pending
    ensures labels'[i].Cluster? && ClosedAt(g, labels', i, j)
  {
  }

  lemma ClosedOld(g: Points, labels: seq<Label>, labels': seq<Label>, p: int, pending: seq<int>, c: nat, i: int, j: int)
    requires |labels| == g.count && 0 <= i < g.count && 0 <= j < g.count
    requires labels[i].Cluster? && ClosedAt(g, labels, i, j)
    requires Walked(labels, labels', p, pending, c)
    ensures ClosedAt(g, labels', i, j)
  {
  }

  lemma ExpandedClosed(g: Points, labels: seq<Label>, labels': seq<Label>, p: int, pending: seq<int>, c: nat)
    requires |labels| == g.count && Closed(g, labels) && p in pending
    requires forall i :: 0 <= i < g.count && labels[i].Cluster? ==> labels[i].id < c
    requires Walked(labels, labels', p, pending, c) && Spread(g, pending, pending)
    requires FreshCores(g, labels, labels', p, pending, c)
    ensures Closed(g, labels')
  {
    forall i, j | g.Core(i) && labels'[i].Cluster? && 0 <= j < g.count && g.near(i, j)
      ensures ClosedAt(g, labels', i, j)
    {
      if i in pending {
        ClosedNew(g, labels, labels', p, pending, c, i, j);
      } else {
        ClosedOld(g, labels, labels', p, pending, c, i, j);
      }
    }
  }

  // The finished worklist holds every core point joined to its start.
  lemma {:induction false} ChainListed(g: Points, pending: seq<int>, path: seq<int>)
    requires Spread(g, pending, pending) && g.IsChain(path) && path[0] in pending
    ensures path[|path| - 1] in pending
  {
    if |path| > 1 {
      assert g.near(path[0], path[1]);
      ChainListed(g, pending, path[1..]);
    }
  }

  lemma JoinedListed(g: Points, pending: seq<int>, p: int, k: int)
    requires Spread(g, pending, pending) && p in pending && g.Joined(p, k)
    ensures k in pending && g.Core(k)
  {
    var path :| g.IsChain(path) && path[0] == p && path[|path| - 1] == k;
    ChainListed(g, pending, path);
  }

  lemma HeldOld(g: Points, labels: seq<Label>, labels': seq<Label>, p: int, pending: seq<int>, c: nat, i: int)
    requires |labels| == g.count && 0 <= i < g.count && labels[i].Cluster? && Held(g, labels, i)
    requires Walked(labels, labels', p, pending, c)
    ensures Held(g, labels', i)
  {
    var k :| g.Core(k) && g.near(k, i) && labels[k] == labels[i];
    assert labels'[k] == labels'[i];
  }

  lemma HeldNew(g: Points, labels: seq<Label>, labels': seq<Label>, p: int, pending: seq<int>, c: nat, i: int)
    requires |labels| == |labels'| == g.count && 0 <= i < g.count && labels'[i] == Cluster(c)
    requires Reached(g, p, i) && Spread(g, pending, pending) && p in pending
    requires FreshCores(g, labels, labels', p, pending, c)
    ensures Held(g, labels', i)
  {
    var k :| g.Joined(p, k) && g.near(k, i);
    JoinedListed(g, pending, p, k);
  }

  lemma ExpandedHeld(g: Points, labels: seq<Label>, labels': seq<Label>, p: int, pending: seq<int>, c: nat)
    requires |labels| == g.count && AllHeld(g, labels) && p in pending
    requires AllReached(g, p, pending) && Walked(labels, labels', p, pending, c) && Spread(g, pending, pending)
    requires FreshCores(g, labels, labels', p, pending, c)
    ensures AllHeld(g, labels')
  {
    forall i | 0 <= i < g.count && !g.Core(i) && labels'[i].Cluster?
      ensures Held(g, labels', i)
    {
      if labels[i].Cluster? {
        HeldOld(g, labels, labels', p, pending, c, i);
      } else {
        HeldNew(g, labels, labels', p, pending, c, i);
      }
    }
  }

  lemma ExpandedSeeded(g: Points, labels: seq<Label>, labels': seq<Label>, seeds: seq<int>, p: int, pending: seq<int>)
    requires |labels| == g.count && 0 <= p < g.count && labels[p] == Unset && g.Core(p) && p in pending
    requires Settled(labels, p) && NoNoisyCore(g, labels)
    requires Seeded(g, labels, seeds) && forall c :: 0 <= c < |seeds| ==> seeds[c] < p
    requires Walked(labels, labels', p, pending, |seeds|)
    ensures Seeded(g, labels', seeds + [p])
  {
    forall i | 0 <= i < g.count && labels'[i].Cluster?
      ensures labels'[i].id < |seeds| + 1 && (g.Core(i) ==> (seeds + [p])[labels'[i].id] <= i)
    {
      if g.Core(i) && !labels[i].Cluster? {
        assert i >= p;
      }
    }
  }

  lemma ExpandedRooted(g: Points, labels: seq<Label>, labels': seq<Label>, seeds: seq<int>, p: int, pending: seq<int>)
    requires |labels| == g.count && p in pending && Rooted(g, labels, seeds)
    requires Walked(labels, labels', p, pending, |seeds|)
    requires FreshCores(g, labels, labels', p, pending, |seeds|)
    ensures Rooted(g, labels', seeds + [p])
  {
  }

  lemma ExpandedIsPartial(g: Points, labels: seq<Label>, labels': seq<Label>, seeds: seq<int>,
                          p: int, pending: seq<int>)
    requires g.Proximity() && 0 <= p < g.count && Partial(g, labels, seeds, p)
    requires labels[p] == Unset && g.Core(p) && p in pending
    requires AllReached(g, p, pending) && Walked(labels, labels', p, pending, |seeds|)
    requires Spread(g, pending, pending)
    ensures Partial(g, labels', seeds + [p], p + 1)
  {
    NewCores(g, labels, labels', p, pending, |seeds|);
    ExpandedClosed(g, labels, labels', p, pending, |seeds|);
    ExpandedHeld(g, labels, labels', p, pending, |seeds|);
    ExpandedSeeded(g, labels, labels', seeds, p, pending);
    ExpandedRooted(g, labels, labels', seeds, p, pending);
    ExpandedSettled(g, labels, labels', p, pending, |seeds|);
  }

  lemma ExpandedSettled(g: Points, labels: seq<Label>, labels': seq<Label>, p: int, pending: seq<int>, c: nat)
    requires |labels| == g.count && 0 <= p < g.count && Settled(labels, p) && NoNoisyCore(g, labels)
    requires Walked(labels, labels', p, pending, c)
    ensures Settled(labels', p + 1) && NoNoisyCore(g, labels')
  {
  }

  // ---------------------------------------------------------------------
  // The routine.

  lemma FewPointsAreNoise(g: Points, labels: seq<Label>)
    requires g.count < g.minSize
    requires |labels| == g.count && forall i :: 0 <= i < g.count ==> labels[i] == Noise
    ensures IsDbscan(g, labels)
  {
    forall i | 0 <= i < g.count
      ensures !g.Core(i)
    {
      SubsetOfRange(g.Ball(i), g.count);
    }
    assert Seeded(g, labels, []);
  }

  method ClusterLabels(g: Points) returns (labels: seq<Label>)
    requires g.Proximity()
    ensures IsDbscan(g, labels)
  {
    if g.count < g.minSize {
      labels := seq(g.count, i => Noise);
      FewPointsAreNoise(g, labels);
      return;
    }
    var neighbours: seq<seq<int>> := [];
    for i := 0 to g.count
      invariant |neighbours| == i && forall k :: 0 <= k < i ==> Lists(g, k, neighbours[k])
    {
      var list := NeighbourList(g, i);
      neighbours := neighbours + [list];
    }
    labels := seq(g.count, i => Unset);
    var clusterId := 0;
    ghost var seeds: seq<int> := [];
    for p := 0 to g.count
      invariant Partial(g, labels, seeds, p)
      invariant clusterId == |seeds|
    {
      if labels[p] != Unset {
        SettledStep(labels, p);
        continue;
      }
      if |neighbours[p]| < g.minSize {
        NoiseStep(g, labels, seeds, p);
        labels := labels[p := Noise];
        continue;
      }
      labels := Expand(g, neighbours, labels, seeds, p, clusterId);
      seeds := seeds + [p];
      clusterId := clusterId + 1;
    }
    CompleteIsDbscan(g, labels, seeds);
  }

  lemma SettledStep(labels: seq<Label>, p: int)
    requires 0 <= p < |labels| && Settled(labels, p) && labels[p] != Unset
    ensures Settled(labels, p + 1)
  {
  }

  lemma NoiseStep(g: Points, labels: seq<Label>, seeds: seq<int>, p: int)
    requires Partial(g, labels, seeds, p) && p < g.count && labels[p] == Unset && !g.Core(p)
    ensures Partial(g, labels[p := Noise], seeds, p + 1)
  {
    NoiseHeld(g, labels, p);
    NoiseClosed(g, labels, p);
    NoiseSeeded(g, labels, seeds, p);
  }

  lemma NoiseHeld(g: Points, labels: seq<Label>, p: int)
    requires |labels| == g.count && 0 <= p < g.count && labels[p] == Unset && AllHeld(g, labels)
    ensures AllHeld(g, labels[p := Noise])
  {
    var labels' := labels[p := Noise];
    forall i | 0 <= i < g.count && !g.Core(i) && labels'[i].Cluster?
      ensures Held(g, labels', i)
    {
      assert Held(g, labels, i);
      var k :| g.Core(k) && g.near(k, i) && labels[k] == labels[i];
      assert labels'[k] == labels'[i];
    }
  }

  lemma NoiseSeeded(g: Points, labels: seq<Label>, seeds: seq<int>, p: int)
    requires |labels| == g.count && 0 <= p < g.count && labels[p] == Unset && !g.Core(p)
    requires Settled(labels, p) && Seeded(g, labels, seeds) && Rooted(g, labels, seeds) && NoNoisyCore(g, labels)
    ensures var labels' := labels[p := Noise];
            Settled(labels', p + 1) && Seeded(g, labels', seeds) && Rooted(g, labels', seeds) && NoNoisyCore(g, labels')
  {
  }

  lemma NoiseClosed(g: Points, labels: seq<Label>, p: int)
    requires |labels| == g.count && Closed(g, labels)
    requires 0 <= p < g.count && labels[p] == Unset && !g.Core(p)
    ensures Closed(g, labels[p := Noise])
  {
  }

  // ---------------------------------------------------------------------
  // The specification leaves no choice: at most one labelling meets it.

  // The smallest core point of its chain-connected component.
  ghost predicate First(g: Points, x: int) {
    g.Core(x) && forall y :: g.Core(y) && g.Joined(y, x) ==> x <= y
  }

  lemma CoresAreLabelled(g: Points, labels: seq<Label>, i: int)
    requires g.Proximity() && IsDbscan(g, labels) && g.Core(i)
    ensures labels[i].Cluster?
  {
    assert g.near(i, i);
  }

  lemma SeedIsFirst(g: Points, labels: seq<Label>, seeds: seq<int>, x: int)
    requires |labels| == g.count && Components(g, labels) && Seeded(g, labels, seeds) && x in seeds
    ensures First(g, x)
  {
    forall y | g.Core(y) && g.Joined(y, x)
      ensures x <= y
    {
      assert labels[y] == labels[x];
    }
  }

  lemma FirstIsSeed(g: Points, labels: seq<Label>, seeds: seq<int>, x: int)
    requires |labels| == g.count && Components(g, labels) && Seeded(g, labels, seeds)
    requires First(g, x) && labels[x].Cluster?
    ensures x in seeds
  {
    var seed := seeds[labels[x].id];
    assert g.Core(seed) && labels[seed] == labels[x];
    assert g.Joined(seed, x);
  }

  lemma SeedsAreFirst(g: Points, labels: seq<Label>, seeds: seq<int>, x: int)
    requires g.Proximity() && IsDbscan(g, labels) && Seeded(g, labels, seeds)
    ensures x in seeds <==> First(g, x)
  {
    if x in seeds {
      SeedIsFirst(g, labels, seeds, x);
    }
    if First(g, x) {
      CoresAreLabelled(g, labels, x);
      FirstIsSeed(g, labels, seeds, x);
    }
  }

  lemma {:induction false} IncreasingAgree(s: seq<int>, t: seq<int>, n: nat)
    requires forall c, d :: 0 <= c < d < |s| ==> s[c] < s[d]
    requires forall c, d :: 0 <= c < d < |t| ==> t[c] < t[d]
    requires forall x :: x in s <==> x in t
    requires n <= |s| && n <= |t|
    ensures s[..n] == t[..n]
  {
    if n > 0 {
      IncreasingAgree(s, t, n - 1);
      var c := n - 1;
      assert forall k :: 0 <= k < c ==> s[..c][k] == s[k] && t[..c][k] == t[k];
      assert s[c] in t && t[c] in s;
    }
  }

  lemma NotLonger(s: seq<int>, t: seq<int>)
    requires forall c, d :: 0 <= c < d < |s| ==> s[c] < s[d]
    requires forall c, d :: 0 <= c < d < |t| ==> t[c] < t[d]
    requires forall x :: x in s <==> x in t
    ensures |t| <= |s|
  {
    if |s| < |t| {
      var x := t[|s|];
      assert x in t;
      var k :| 0 <= k < |s| && s[k] == x;
      IncreasingAgree(s, t, |s|);
    }
  }

  lemma IncreasingEqual(s: seq<int>, t: seq<int>)
    requires forall c, d :: 0 <= c < d < |s| ==> s[c] < s[d]
    requires forall c, d :: 0 <= c < d < |t| ==> t[c] < t[d]
    requires forall x :: x in s <==> x in t
    ensures s == t
  {
    if |s| < |t| {
      NotLonger(s, t);
    } else if |t| < |s| {
      NotLonger(t, s);
    } else {
      IncreasingAgree(s, t, |s|);
    }
  }

  lemma CoresShareLabel(g: Points, labels: seq<Label>, other: seq<Label>, seed: int, i: int)
    requires |labels| == |other| == g.count && Components(g, labels) && Components(g, other)
    requires g.Core(seed) && g.Core(i)
    ensures labels[seed] == labels[i] <==> other[seed] == other[i]
  {
    assert labels[seed] == labels[i] <==> g.Joined(seed, i);
    assert other[seed] == other[i] <==> g.Joined(seed, i);
  }

  lemma CoresAgree(g: Points, labels: seq<Label>, other: seq<Label>, seeds: seq<int>, i: int)
    requires g.Proximity() && IsDbscan(g, labels) && IsDbscan(g, other)
    requires Seeded(g, labels, seeds) && Seeded(g, other, seeds) && g.Core(i)
    ensures labels[i] == other[i]
  {
    CoresAreLabelled(g, labels, i);
    var seed := seeds[labels[i].id];
    CoresShareLabel(g, labels, other, seed, i);
  }

  lemma SeedsAgree(g: Points, labels: seq<Label>, other: seq<Label>, seeds: seq<int>, seeds': seq<int>)
    requires g.Proximity() && IsDbscan(g, labels) && IsDbscan(g, other)
    requires Seeded(g, labels, seeds) && Seeded(g, other, seeds')
    ensures seeds == seeds'
  {
    forall x
      ensures x in seeds <==> x in seeds'
    {
      SeedsAreFirst(g, labels, seeds, x);
      SeedsAreFirst(g, other, seeds', x);
    }
    IncreasingEqual(seeds, seeds');
  }

  lemma LabelsAgree(g: Points, labels: seq<Label>, other: seq<Label>, seeds: seq<int>, i: int)
    requires g.Proximity() && IsDbscan(g, labels) && IsDbscan(g, other)
    requires Seeded(g, labels, seeds) && Seeded(g, other, seeds) && 0 <= i < g.count
    ensures labels[i] == other[i]
  {
    assert labels[i] == Noise <==> other[i] == Noise;
    if labels[i] != Noise {
      HangsNoLater(g, labels, other, seeds, i);
      HangsNoLater(g, other, labels, seeds, i);
    }
  }

  lemma HangsNoLater(g: Points, labels: seq<Label>, other: seq<Label>, seeds: seq<int>, i: int)
    requires g.Proximity() && IsDbscan(g, labels) && IsDbscan(g, other)
    requires Seeded(g, labels, seeds) && Seeded(g, other, seeds) && 0 <= i < g.count
    requires labels[i].Cluster? && other[i].Cluster?
    ensures labels[i].id <= other[i].id
  {
    assert Hangs(g, other, i);
    var k :| g.Core(k) && g.near(k, i) && other[k] == other[i];
    CoresAgree(g, labels, other, seeds, k);
    assert Hangs(g, labels, i);
  }

  lemma DbscanUnique(g: Points, labels: seq<Label>, other: seq<Label>)
    requires g.Proximity() && IsDbscan(g, labels) && IsDbscan(g, other)
    ensures labels == other
  {
    var seeds :| Seeded(g, labels, seeds);
    var seeds' :| Seeded(g, other, seeds');
    SeedsAgree(g, labels, other, seeds, seeds');
    forall i | 0 <= i < g.count
      ensures labels[i] == other[i]
    {
      LabelsAgree(g, labels, other, seeds, i);
    }
  }
}
