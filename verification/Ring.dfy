/**
  The consistent-hashing ring (cluster/cluster.go). A point belongs to a node, named by its position
  in the cluster's list; the 32-bit hash is any function.
 */
module Ring {
  import opened Decimal

  const HASHES: nat := 0x1_0000_0000

  type Hash = h: nat | h < 0x1_0000_0000

  type HashFn = string -> Hash

  datatype VirtualNode = VirtualNode(hash: Hash, node: nat)

  type Points = seq<VirtualNode>

  // ----- building the ring

  function PointName(id: int, i: nat): string {
    "node-" + Print(id) + "-" + Print(i)
  }

  function NodePoints(hash: HashFn, id: int, node: nat, replicas: nat): Points {
    if replicas == 0 then []
    else NodePoints(hash, id, node, replicas - 1) + [VirtualNode(hash(PointName(id, replicas - 1)), node)]
  }

  function AllPoints(hash: HashFn, ids: seq<int>, replicas: nat): Points
    decreases |ids|
  {
    if ids == [] then []
    else AllPoints(hash, ids[..|ids| - 1], replicas) + NodePoints(hash, ids[|ids| - 1], |ids| - 1, replicas)
  }

  ghost predicate Sorted(ps: Points) {
    forall i, j :: 0 <= i < j < |ps| ==> ps[i].hash <= ps[j].hash
  }

  /** ps is a ring of these nodes: their points, sorted by hash, in any order among equal hashes. */
  ghost predicate IsRing(ps: Points, hash: HashFn, ids: seq<int>, replicas: nat) {
    Sorted(ps) && multiset(ps) == multiset(AllPoints(hash, ids, replicas))
  }

  lemma InsertedMembers(ps: Points, i: nat, p: VirtualNode)
    requires i <= |ps|
    ensures multiset(ps[..i] + [p] + ps[i..]) == multiset(ps) + multiset{p}
  {
    assert ps == ps[..i] + ps[i..];
  }

  lemma InsertedSorted(ps: Points, i: nat, p: VirtualNode)
    requires Sorted(ps) && i <= |ps|
    requires forall j :: i <= j < |ps| ==> p.hash < ps[j].hash
    requires i > 0 ==> ps[i - 1].hash <= p.hash
    ensures Sorted(ps[..i] + [p] + ps[i..])
  {
    var r := ps[..i] + [p] + ps[i..];
    forall j ensures 0 <= j < i ==> r[j] == ps[j] && r[j].hash <= p.hash {
    }
    forall j ensures i < j < |r| ==> r[j] == ps[j - 1] {
    }
  }

  method InsertSorted(ps: Points, p: VirtualNode) returns (r: Points)
    requires Sorted(ps)
    ensures Sorted(r) && multiset(r) == multiset(ps) + multiset{p}
  {
    var i := |ps|;
    while i > 0 && p.hash < ps[i - 1].hash
      invariant 0 <= i <= |ps|
      invariant forall j :: i <= j < |ps| ==> p.hash < ps[j].hash
    {
      i := i - 1;
    }
    r := ps[..i] + [p] + ps[i..];
    InsertedMembers(ps, i, p);
    InsertedSorted(ps, i, p);
  }

  /** sort.Slice by hash. */
  method SortPoints(ps: Points) returns (r: Points)
    ensures Sorted(r) && multiset(r) == multiset(ps)
  {
    r := [];
    for i := 0 to |ps|
      invariant Sorted(r) && multiset(r) == multiset(ps[..i])
    {
      r := InsertSorted(r, ps[i]);
      assert ps[..i + 1] == ps[..i] + [ps[i]];
    }
    assert ps[..|ps|] == ps;
  }

  method BuildRing(hash: HashFn, ids: seq<int>, replicas: nat) returns (ring: Points)
    ensures IsRing(ring, hash, ids, replicas)
  {
    var ps: Points := [];
    for n := 0 to |ids|
      invariant ps == AllPoints(hash, ids[..n], replicas)
    {
      assert ids[..n + 1][..n] == ids[..n];
      ghost var before := ps;
      for i := 0 to replicas
        invariant ps == before + NodePoints(hash, ids[n], n, i)
      {
        ps := ps + [VirtualNode(hash(PointName(ids[n], i)), n)];
      }
    }
    assert ids[..|ids|] == ids;
    ring := SortPoints(ps);
  }

  // ----- looking up a key

  /** The first position whose hash is at least h, or the length. */
  function FirstAtLeast(ps: Points, h: Hash): (i: nat)
    ensures i <= |ps|
    ensures forall j :: 0 <= j < i ==> ps[j].hash < h
    ensures i < |ps| ==> h <= ps[i].hash
  {
    if ps == [] || h <= ps[0].hash then 0 else 1 + FirstAtLeast(ps[1..], h)
  }

  /** sort.Search: bisection on a sorted ring. */
  method Search(ps: Points, h: Hash) returns (i: nat)
    requires Sorted(ps)
    ensures i == FirstAtLeast(ps, h)
  {
    var lo, hi := 0, |ps|;
    while lo < hi
      invariant 0 <= lo <= hi <= |ps|
      invariant lo <= FirstAtLeast(ps, h) <= hi
    {
      var mid := (lo + hi) / 2;
      if ps[mid].hash < h {
        lo := mid + 1;
      } else {
        hi := mid;
      }
    }
    i := lo;
  }

  /** The point a hash is sent to: the first one not before it, or the first of all. */
  function Successor(ps: Points, h: Hash): VirtualNode
    requires ps != []
  {
    var i := FirstAtLeast(ps, h);
    ps[if i == |ps| then 0 else i]
  }

  /** How far clockwise one has to go from a to reach b. */
  function Clockwise(a: Hash, b: Hash): Hash {
    if a <= b then b - a else b - a + HASHES
  }

  ghost predicate Nearest(ps: Points, h: Hash, p: VirtualNode) {
    p in ps && forall q :: q in ps ==> Clockwise(h, p.hash) <= Clockwise(h, q.hash)
  }

  lemma ClockwiseInjective(h: Hash, a: Hash, b: Hash)
    requires Clockwise(h, a) == Clockwise(h, b)
    ensures a == b
  {
  }

  /** The n-th point is the nearest one clockwise, and the first of those with its hash. */
  ghost predicate Owns(ps: Points, h: Hash, n: nat) {
    n < |ps| && Nearest(ps, h, ps[n]) && forall m :: 0 <= m < n ==> ps[m].hash != ps[n].hash
  }

  /** The point found by bisection, with wrap-around, is that one. */
  lemma SuccessorNearest(ps: Points, h: Hash) returns (n: nat)
    requires ps != [] && Sorted(ps)
    ensures Owns(ps, h, n) && Successor(ps, h) == ps[n]
  {
    n := FirstAtLeast(ps, h);
    n := if n == |ps| then 0 else n;
    forall q | q in ps ensures Clockwise(h, ps[n].hash) <= Clockwise(h, q.hash) {
      var j :| 0 <= j < |ps| && ps[j] == q;
    }
  }

  lemma OwnerUnique(ps: Points, h: Hash, m: nat, n: nat)
    requires Owns(ps, h, m) && Owns(ps, h, n)
    ensures m == n
  {
    ClockwiseInjective(h, ps[m].hash, ps[n].hash);
  }

  // ----- adding a node

  /** No hash carries points of two different nodes. */
  ghost predicate NoSharing(ps: Points) {
    forall p, q :: p in ps && q in ps && p.hash == q.hash ==> p.node == q.node
  }

  lemma {:induction false} NodePointsOf(hash: HashFn, id: int, node: nat, replicas: nat)
    ensures |NodePoints(hash, id, node, replicas)| == replicas
    ensures forall p :: p in NodePoints(hash, id, node, replicas) ==> p.node == node
  {
    if replicas > 0 {
      NodePointsOf(hash, id, node, replicas - 1);
    }
  }

  /** h is the hash of one of the node's names. */
  ghost predicate HashOf(hash: HashFn, id: int, replicas: nat, h: Hash) {
    exists i: nat :: i < replicas && h == hash("node-" + Print(id) + "-" + Print(i))
  }

  lemma {:induction false} NodePointsAre(hash: HashFn, id: int, node: nat, replicas: nat, p: VirtualNode)
    ensures p in NodePoints(hash, id, node, replicas) <==>
            p.node == node && HashOf(hash, id, replicas, p.hash)
  {
    if replicas > 0 {
      NodePointsAre(hash, id, node, replicas - 1, p);
      assert HashOf(hash, id, replicas, hash(PointName(id, replicas - 1)));
    }
  }

  lemma {:induction false} AllPointsAre(hash: HashFn, ids: seq<int>, replicas: nat, p: VirtualNode)
    ensures p in AllPoints(hash, ids, replicas) <==>
            p.node < |ids| && HashOf(hash, ids[p.node], replicas, p.hash)
    decreases |ids|
  {
    if ids != [] {
      AllPointsAre(hash, ids[..|ids| - 1], replicas, p);
      NodePointsAre(hash, ids[|ids| - 1], |ids| - 1, replicas, p);
    }
  }

  lemma {:induction false} AllPointsOf(hash: HashFn, ids: seq<int>, replicas: nat)
    ensures forall p :: p in AllPoints(hash, ids, replicas) ==> p.node < |ids|
    ensures replicas > 0 && ids != [] ==> AllPoints(hash, ids, replicas) != []
    decreases |ids|
  {
    if ids != [] {
      AllPointsOf(hash, ids[..|ids| - 1], replicas);
      NodePointsOf(hash, ids[|ids| - 1], |ids| - 1, replicas);
    }
  }

  lemma RingMembers(ps: Points, hash: HashFn, ids: seq<int>, replicas: nat, p: VirtualNode)
    requires IsRing(ps, hash, ids, replicas)
    ensures p in ps <==> p in AllPoints(hash, ids, replicas)
  {
    assert p in ps <==> p in multiset(ps);
    assert p in AllPoints(hash, ids, replicas) <==> p in multiset(AllPoints(hash, ids, replicas));
  }

  /** Text up to a dash with only digits behind it splits in one way. */
  lemma LastDash(a: string, x: string, b: string, y: string)
    requires a + "-" + x == b + "-" + y
    requires (forall c :: c in x ==> IsDigit(c)) && forall c :: c in y ==> IsDigit(c)
    ensures a == b && x == y
  {
    var s := a + "-" + x;
    assert s[|a|] == s[|b|] == '-';
    assert forall j :: |a| < j < |s| ==> s[j] in x;
    assert forall j :: |b| < j < |s| ==> s[j] in y;
    assert a == s[..|a|] && x == s[|a| + 1..] && b == s[..|b|] && y == s[|b| + 1..];
  }

  /** No two points are hashes of the same name. */
  lemma PointNameInjective(id: int, i: nat, id': int, i': nat)
    requires IsInt64(id) && IsInt64(i) && IsInt64(id') && IsInt64(i')
    requires PointName(id, i) == PointName(id', i')
    ensures id == id' && i == i'
  {
    LastDash("node-" + Print(id), Print(i), "node-" + Print(id'), Print(i'));
    assert Print(id) == ("node-" + Print(id))[5..] && Print(id') == ("node-" + Print(id'))[5..];
    ParsePrint(id);
    ParsePrint(i);
    ParsePrint(id');
    ParsePrint(i');
  }

  lemma {:induction false} AllPointsCount(hash: HashFn, ids: seq<int>, replicas: nat)
    ensures |AllPoints(hash, ids, replicas)| == |ids| * replicas
    decreases |ids|
  {
    if ids != [] {
      AllPointsCount(hash, ids[..|ids| - 1], replicas);
      NodePointsOf(hash, ids[|ids| - 1], |ids| - 1, replicas);
      assert (|ids| - 1) * replicas + replicas == |ids| * replicas;
    }
  }

  /** The points of a ring are the hashes of "node-ID-i", for each of its nodes and each i below the
      number of replicas, and there are as many of them. */
  lemma RingPoints(ps: Points, hash: HashFn, ids: seq<int>, replicas: nat)
    requires IsRing(ps, hash, ids, replicas)
    ensures |ps| == |ids| * replicas
    ensures forall p :: p in ps <==> p.node < |ids| && HashOf(hash, ids[p.node], replicas, p.hash)
  {
    AllPointsCount(hash, ids, replicas);
    assert |ps| == |multiset(ps)| == |multiset(AllPoints(hash, ids, replicas))|;
    forall p ensures p in ps <==> p.node < |ids| && HashOf(hash, ids[p.node], replicas, p.hash) {
      RingMembers(ps, hash, ids, replicas, p);
      AllPointsAre(hash, ids, replicas, p);
    }
  }

  /** Every point of a ring belongs to one of its nodes. */
  lemma RingNodes(ps: Points, hash: HashFn, ids: seq<int>, replicas: nat)
    requires IsRing(ps, hash, ids, replicas)
    ensures forall p :: p in ps ==> p.node < |ids|
  {
    AllPointsOf(hash, ids, replicas);
    forall p | p in ps ensures p.node < |ids| {
      RingMembers(ps, hash, ids, replicas, p);
    }
  }

  lemma OldAndNew(hash: HashFn, ids: seq<int>, id: int, replicas: nat, before: Points, after: Points)
    requires IsRing(before, hash, ids, replicas) && IsRing(after, hash, ids + [id], replicas)
    ensures forall p :: p in before ==> p in after && p.node < |ids|
    ensures forall p :: p in after && p.node != |ids| ==> p in before
  {
    var all := AllPoints(hash, ids, replicas);
    var added := NodePoints(hash, id, |ids|, replicas);
    assert (ids + [id])[..|ids|] == ids;
    assert AllPoints(hash, ids + [id], replicas) == all + added;
    AllPointsOf(hash, ids, replicas);
    NodePointsOf(hash, id, |ids|, replicas);
    forall p ensures (p in before ==> p in after && p.node < |ids|) && (p in after && p.node != |ids| ==> p in before) {
      RingMembers(before, hash, ids, replicas, p);
      RingMembers(after, hash, ids + [id], replicas, p);
    }
  }

  /** Some point of the node is nearer to h than every point of before. */
  ghost predicate Gains(before: Points, after: Points, node: nat, h: Hash) {
    exists p :: p in after && p.node == node && forall q :: q in before ==> Clockwise(h, p.hash) < Clockwise(h, q.hash)
  }

  /** Building the ring with one more node sends a key to that node, exactly when one of its points
      is nearer than every old point, and otherwise leaves the key where it was. */
  lemma MinimalDisruption(hash: HashFn, ids: seq<int>, id: int, replicas: nat, before: Points, after: Points, h: Hash)
    requires IsRing(before, hash, ids, replicas) && IsRing(after, hash, ids + [id], replicas)
    requires before != [] && after != [] && NoSharing(after)
    ensures Successor(after, h).node == |ids| || Successor(after, h).node == Successor(before, h).node
    ensures Successor(after, h).node == |ids| <==> Gains(before, after, |ids|, h)
  {
    var p, q := Successor(after, h), Successor(before, h);
    var m := SuccessorNearest(after, h);
    var n := SuccessorNearest(before, h);
    OldAndNew(hash, ids, id, replicas, before, after);
    if p.node != |ids| {
      assert p in before && q in after;
      ClockwiseInjective(h, p.hash, q.hash);
    } else {
      forall o | o in before ensures Clockwise(h, p.hash) < Clockwise(h, o.hash) {
        assert o in after && o.node < |ids|;
        if Clockwise(h, p.hash) == Clockwise(h, o.hash) {
          ClockwiseInjective(h, p.hash, o.hash);
        }
      }
    }
  }
}
