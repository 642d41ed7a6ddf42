/**
 The consistent-hash ring of consistenthash/con_hash.go: the order of virtual
 points, the canonical point sequence of a node set, and which node owns a key.
 */
module RingModel {
  import opened Common

  datatype Point = Point(hash: uint32, node: string, replica: nat)

  datatype Config = Config(replicas: nat, hash: string -> uint32)

  // ---- The order of points -------------------------------------------------

  predicate StringLess(a: string, b: string) {
    if b == [] then false
    else if a == [] then true
    else a[0] < b[0] || (a[0] == b[0] && StringLess(a[1..], b[1..]))
  }

  /** By hash, then node, then replica. */
  predicate Less(p: Point, q: Point) {
    if p.hash != q.hash then p.hash < q.hash
    else if p.node != q.node then StringLess(p.node, q.node)
    else p.replica < q.replica
  }

  lemma {:induction false} StringTrichotomy(a: string, b: string)
    ensures StringLess(a, b) || StringLess(b, a) || a == b
    ensures !(StringLess(a, b) && StringLess(b, a))
    ensures !StringLess(a, a)
  {
    if a != [] && b != [] {
      StringTrichotomy(a[1..], b[1..]);
      StringTrichotomy(a[1..], a[1..]);
      assert a == [a[0]] + a[1..] && b == [b[0]] + b[1..];
    } else if a != [] {
      StringTrichotomy(a[1..], a[1..]);
    }
  }

  lemma {:induction false} StringTransitive(a: string, b: string, c: string)
    requires StringLess(a, b) && StringLess(b, c)
    ensures StringLess(a, c)
  {
    if a != [] && a[0] == b[0] && b[0] == c[0] {
      StringTransitive(a[1..], b[1..], c[1..]);
    }
  }

  lemma LessTotal(p: Point, q: Point)
    ensures Less(p, q) || Less(q, p) || p == q
    ensures !(Less(p, q) && Less(q, p)) && !Less(p, p)
  {
    StringTrichotomy(p.node, q.node);
  }

  lemma LessTransitive(p: Point, q: Point, r: Point)
    requires Less(p, q) && Less(q, r)
    ensures Less(p, r)
  {
    if p.hash == q.hash == r.hash {
      StringTrichotomy(p.node, q.node);
      if p.node != q.node && q.node != r.node {
        StringTransitive(p.node, q.node, r.node);
        StringTrichotomy(p.node, r.node);
        if p.node == r.node {
          StringTrichotomy(q.node, r.node);
        }
      }
    }
  }

  // ---- Canonical point sequences -------------------------------------------

  ghost predicate Sorted(points: seq<Point>) {
    forall i, j :: 0 <= i < j < |points| ==> Less(points[i], points[j])
  }

  /** The point of one virtual node. */
  function PointOf(cfg: Config, node: string, replica: nat): Point {
    Point(cfg.hash(node + "#" + Decimal(replica)), node, replica)
  }

  /** `p` is one of the virtual points of `nodes`. */
  predicate Belongs(cfg: Config, nodes: set<string>, p: Point) {
    p.node in nodes && p.replica < cfg.replicas && p == PointOf(cfg, p.node, p.replica)
  }

  /** The points are strictly sorted and are exactly the virtual points of `nodes`. */
  ghost predicate Canonical(cfg: Config, nodes: set<string>, points: seq<Point>) {
    && Sorted(points)
    && forall p :: p in points <==> Belongs(cfg, nodes, p)
  }

  /** Two strictly sorted sequences with the same points are the same sequence. */
  lemma {:induction false} SortedUnique(a: seq<Point>, b: seq<Point>)
    requires Sorted(a) && Sorted(b) && forall p :: p in a <==> p in b
    ensures a == b
  {
    assert a != [] ==> a[0] in b;
    assert b != [] ==> b[0] in a;
    if a != [] && b != [] {
      SortedHead(a, b);
      forall p | p in a[1..]
        ensures p in b[1..]
      {
        assert p in a && Less(a[0], p);
        LessTotal(p, p);
        assert p in b && p != b[0];
      }
      forall p | p in b[1..]
        ensures p in a[1..]
      {
        assert p in b && Less(b[0], p);
        LessTotal(p, p);
        assert p in a && p != a[0];
      }
      SortedUnique(a[1..], b[1..]);
      assert a == [a[0]] + a[1..] && b == [b[0]] + b[1..];
    }
  }

  lemma SortedHead(a: seq<Point>, b: seq<Point>)
    requires Sorted(a) && Sorted(b) && a != [] && b != [] && forall p :: p in a <==> p in b
    ensures a[0] == b[0]
  {
    assert a[0] in b && b[0] in a;
    var i :| 0 <= i < |b| && b[i] == a[0];
    var j :| 0 <= j < |a| && a[j] == b[0];
    LessTotal(a[0], b[0]);
  }

  /** Equal node sets give identical rings, whatever the history that built them. */
  lemma RingIsFunctionOfNodes(cfg: Config, nodes: set<string>, a: seq<Point>, b: seq<Point>)
    requires Canonical(cfg, nodes, a) && Canonical(cfg, nodes, b)
    ensures a == b
  {
    SortedUnique(a, b);
  }

  // ---- Building the sequence -----------------------------------------------

  /** Inserts a new point at its place. */
  function Insert(points: seq<Point>, p: Point): (r: seq<Point>)
    ensures forall q :: q in r <==> q in points || q == p
    ensures |r| == |points| + 1
  {
    if points == [] then [p]
    else if Less(p, points[0]) then [p] + points
    else [points[0]] + Insert(points[1..], p)
  }

  lemma {:induction false} InsertSorted(points: seq<Point>, p: Point)
    requires Sorted(points) && p !in points
    ensures Sorted(Insert(points, p))
  {
    if points != [] {
      LessTotal(p, points[0]);
      if Less(p, points[0]) {
        forall q | q in points
          ensures Less(p, q)
        {
          if q != points[0] {
            LessTransitive(p, points[0], q);
          }
        }
      } else {
        InsertSorted(points[1..], p);
        forall q | q in Insert(points[1..], p)
          ensures Less(points[0], q)
        {
        }
      }
    }
  }

  /** The canonical points of `nodes`, and of the first `n` replicas of `node` when it is not among them. */
  ghost predicate PartlyCanonical(cfg: Config, nodes: set<string>, node: string, n: nat, points: seq<Point>) {
    forall p :: p in points <==>
      Belongs(cfg, nodes, p) || (p.replica < n && p == PointOf(cfg, node, p.replica))
  }

  lemma {:induction false} CanonicalWithReplicas(cfg: Config, nodes: set<string>, node: string, n: nat,
                                                 points: seq<Point>)
    returns (more: seq<Point>)
    requires Canonical(cfg, nodes, points) && node !in nodes && n <= cfg.replicas
    ensures Sorted(more) && PartlyCanonical(cfg, nodes, node, n, more)
  {
    if n == 0 {
      more := points;
    } else {
      var fewer := CanonicalWithReplicas(cfg, nodes, node, n - 1, points);
      InsertSorted(fewer, PointOf(cfg, node, n - 1));
      more := Insert(fewer, PointOf(cfg, node, n - 1));
    }
  }

  /** Every node set has a canonical point sequence. */
  lemma {:induction false} CanonicalExists(cfg: Config, nodes: set<string>) returns (points: seq<Point>)
    ensures Canonical(cfg, nodes, points)
  {
    if nodes == {} {
      points := [];
    } else {
      var node :| node in nodes;
      var rest := CanonicalExists(cfg, nodes - {node});
      points := CanonicalWithReplicas(cfg, nodes - {node}, node, cfg.replicas, rest);
      forall p
        ensures p in points <==> Belongs(cfg, nodes, p)
      {
        assert Belongs(cfg, nodes, p) <==>
          Belongs(cfg, nodes - {node}, p) || (p.replica < cfg.replicas && p == PointOf(cfg, node, p.replica));
      }
    }
  }

  // ---- Ownership -----------------------------------------------------------

  /** The first index whose hash is at least `h`; the length when there is none. */
  ghost predicate FirstAtOrAfter(points: seq<Point>, h: uint32, n: nat) {
    && n <= |points|
    && (forall i :: 0 <= i < n ==> points[i].hash < h)
    && (forall i :: n <= i < |points| ==> points[i].hash >= h)
  }

  /**
   `p` is the owner's point for hash `h` among the points of `nodes`: the least
   point at or after `h`, or the least point of all when none is that far.
   */
  ghost predicate OwnerPoint(cfg: Config, nodes: set<string>, h: uint32, p: Point) {
    && Belongs(cfg, nodes, p)
    && (p.hash >= h ==> forall q :: Belongs(cfg, nodes, q) && q.hash >= h ==> p == q || Less(p, q))
    && (p.hash < h ==> forall q :: Belongs(cfg, nodes, q) ==> q.hash < h && (p == q || Less(p, q)))
  }

  lemma OwnerPointUnique(cfg: Config, nodes: set<string>, h: uint32, p: Point, q: Point)
    requires OwnerPoint(cfg, nodes, h, p) && OwnerPoint(cfg, nodes, h, q)
    ensures p == q
  {
    LessTotal(p, q);
  }

  /** The point that the ring's lookup selects is the owner's point. */
  lemma SelectedIsOwner(cfg: Config, nodes: set<string>, points: seq<Point>, h: uint32, n: nat)
    requires Canonical(cfg, nodes, points) && points != [] && FirstAtOrAfter(points, h, n)
    ensures OwnerPoint(cfg, nodes, h, points[if n == |points| then 0 else n])
  {
  }

  /** The owner of a key, given only the node set; the empty string when there is none. */
  ghost function Owner(cfg: Config, nodes: set<string>, key: string): string {
    if key != "" && exists p :: OwnerPoint(cfg, nodes, cfg.hash(key), p)
    then
      var p :| OwnerPoint(cfg, nodes, cfg.hash(key), p);
      p.node
    else ""
  }

  lemma OwnerIs(cfg: Config, nodes: set<string>, key: string, p: Point)
    requires key != "" && OwnerPoint(cfg, nodes, cfg.hash(key), p)
    ensures Owner(cfg, nodes, key) == p.node && p.node in nodes
  {
    var q :| OwnerPoint(cfg, nodes, cfg.hash(key), q) && q.node == Owner(cfg, nodes, key);
    OwnerPointUnique(cfg, nodes, cfg.hash(key), p, q);
  }

  /** An owner's point that survives a change to fewer nodes is still the owner's point. */
  lemma OwnerPointShrinks(cfg: Config, fewer: set<string>, nodes: set<string>, h: uint32, p: Point)
    requires fewer <= nodes && OwnerPoint(cfg, nodes, h, p) && p.node in fewer
    ensures OwnerPoint(cfg, fewer, h, p)
  {
  }

  ghost predicate HasOwner(cfg: Config, nodes: set<string>, key: string) {
    key != "" && exists p :: OwnerPoint(cfg, nodes, cfg.hash(key), p)
  }

  lemma {:induction false} SplitPoint(points: seq<Point>, h: uint32) returns (n: nat)
    requires Sorted(points)
    ensures FirstAtOrAfter(points, h, n)
  {
    if points == [] || points[0].hash >= h {
      n := 0;
    } else {
      n := SplitPoint(points[1..], h);
      n := n + 1;
    }
  }

  /** Every key but the empty one has an owner as soon as there is a virtual point. */
  lemma OwnerExists(cfg: Config, nodes: set<string>, key: string)
    ensures HasOwner(cfg, nodes, key) <==> key != "" && nodes != {} && cfg.replicas > 0
    ensures HasOwner(cfg, nodes, key) ==> Owner(cfg, nodes, key) in nodes
    ensures !HasOwner(cfg, nodes, key) ==> Owner(cfg, nodes, key) == ""
  {
    if key != "" && nodes != {} && cfg.replicas > 0 {
      var node :| node in nodes;
      var points := CanonicalExists(cfg, nodes);
      assert Belongs(cfg, nodes, PointOf(cfg, node, 0));
      var n := SplitPoint(points, cfg.hash(key));
      SelectedIsOwner(cfg, nodes, points, cfg.hash(key), n);
      OwnerIs(cfg, nodes, key, points[if n == |points| then 0 else n]);
    }
  }

  /** Adding a node moves a key only to that node. */
  lemma AddMovesOnlyToNew(cfg: Config, nodes: set<string>, added: string, key: string)
    ensures Owner(cfg, nodes + {added}, key) == Owner(cfg, nodes, key) || Owner(cfg, nodes + {added}, key) == added
  {
    OwnerExists(cfg, nodes + {added}, key);
    OwnerExists(cfg, nodes, key);
    if HasOwner(cfg, nodes + {added}, key) {
      var p :| OwnerPoint(cfg, nodes + {added}, cfg.hash(key), p);
      OwnerIs(cfg, nodes + {added}, key, p);
      if p.node in nodes {
        OwnerPointShrinks(cfg, nodes, nodes + {added}, cfg.hash(key), p);
        OwnerIs(cfg, nodes, key, p);
      }
    }
  }

  /** Removing a node moves only the keys that it owned. */
  lemma RemoveMovesOnlyOwned(cfg: Config, nodes: set<string>, removed: string, key: string)
    requires Owner(cfg, nodes, key) != removed
    ensures Owner(cfg, nodes - {removed}, key) == Owner(cfg, nodes, key)
  {
    OwnerExists(cfg, nodes, key);
    OwnerExists(cfg, nodes - {removed}, key);
    if HasOwner(cfg, nodes, key) {
      var p :| OwnerPoint(cfg, nodes, cfg.hash(key), p);
      OwnerIs(cfg, nodes, key, p);
      OwnerPointShrinks(cfg, nodes - {removed}, nodes, cfg.hash(key), p);
      OwnerIs(cfg, nodes - {removed}, key, p);
    }
  }
}
