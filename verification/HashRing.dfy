/** The mutable ring: Add appends and sorts, Remove filters in place, Get searches. */
module ConsistentHash {
  import opened Common
  import opened RingModel

  predicate NoDup(points: seq<Point>) {
    forall i, j :: 0 <= i < j < |points| ==> points[i] != points[j]
  }

  /** sortPoints: the same points in strictly increasing order. */
  method SortPoints(points: seq<Point>) returns (sorted: seq<Point>)
    requires NoDup(points)
    ensures Sorted(sorted) && forall p :: p in sorted <==> p in points
  {
    sorted := [];
    for i := 0 to |points|
      invariant Sorted(sorted) && forall p :: p in sorted <==> p in points[..i]
    {
      assert points[..i + 1] == points[..i] + [points[i]];
      InsertSorted(sorted, points[i]);
      sorted := Insert(sorted, points[i]);
    }
    assert points[..|points|] == points;
  }

  function Filter(points: seq<Point>, node: string): (r: seq<Point>)
    ensures |r| <= |points|
    ensures forall p :: p in r <==> p in points && p.node != node
  {
    if points == [] then []
    else
      var last := points[|points| - 1];
      Filter(points[..|points| - 1], node) + if last.node != node then [last] else []
  }

  lemma {:induction false} FilterSorted(points: seq<Point>, node: string)
    requires Sorted(points)
    ensures Sorted(Filter(points, node))
  {
    if points != [] {
      var init, last := points[..|points| - 1], points[|points| - 1];
      FilterSorted(init, node);
      forall p | p in Filter(init, node)
        ensures Less(p, last)
      {
        assert p in init;
      }
    }
  }

  /** The loop of Remove: the kept points are written over the slice that is being read. */
  method FilterInPlace(a: array<Point>, node: string) returns (kept: nat)
    modifies a
    ensures kept <= a.Length
    ensures a[..kept] == Filter(old(a[..]), node)
  {
    ghost var source := a[..];
    kept := 0;
    for i := 0 to a.Length
      invariant kept <= i
      invariant a[..kept] == Filter(source[..i], node)
      invariant forall j :: i <= j < a.Length ==> a[j] == source[j]
    {
      FilterNext(source, i, node);
      ghost var done := a[..kept];
      if a[i].node != node {
        a[kept] := a[i];
        kept := kept + 1;
        assert a[..kept] == done + [source[i]];
      }
    }
    assert source[..a.Length] == source;
  }

  lemma FilterNext(points: seq<Point>, i: nat, node: string)
    requires i < |points|
    ensures Filter(points[..i + 1], node) ==
      Filter(points[..i], node) + if points[i].node != node then [points[i]] else []
  {
    assert points[..i + 1][..i] == points[..i];
  }

  class HashRing {
    var points: seq<Point>
    var nodes: set<string>
    const cfg: Config

    /** The points are the canonical sequence of the current nodes. */
    ghost predicate Valid()
      reads this
    {
      Canonical(cfg, nodes, points) && "" !in nodes && cfg.replicas > 0
    }

    constructor (replicas: int, hash: string -> uint32)
      ensures Valid() && nodes == {}
      ensures cfg == Config(if replicas > 0 then replicas else 100, hash)
    {
      points, nodes := [], {};
      cfg := Config(if replicas > 0 then replicas else 100, hash);
    }

    /** Adds members idempotently; empty names are skipped and an empty list is refused. */
    method Add(added: seq<string>) returns (ok: bool)
      requires Valid()
      modifies this`points, this`nodes
      ensures Valid()
      ensures ok <==> added != []
      ensures nodes == old(nodes) + (set n | n in added && n != "")
    {
      if added == [] {
        return false;
      }
      var changed := false;
      SortedNoDup(points);
      for k := 0 to |added|
        invariant "" !in nodes && NoDup(points)
        invariant forall p :: p in points <==> Belongs(cfg, nodes, p)
        invariant nodes == old(nodes) + (set n | n in added[..k] && n != "")
        invariant !changed ==> Sorted(points)
      {
        assert added[..k + 1] == added[..k] + [added[k]];
        if added[k] != "" && added[k] !in nodes {
          AppendReplicas(added[k]);
          changed := true;
        }
      }
      assert added[..|added|] == added;
      if changed {
        points := SortPoints(points);
      }
      ok := true;
    }

    /** The inner loop of Add: one new node and its virtual points, not yet sorted. */
    method AppendReplicas(node: string)
      requires node !in nodes && NoDup(points)
      requires forall p :: p in points <==> Belongs(cfg, nodes, p)
      modifies this`points, this`nodes
      ensures nodes == old(nodes) + {node} && NoDup(points)
      ensures forall p :: p in points <==> Belongs(cfg, nodes, p)
    {
      ghost var before := nodes;
      nodes := nodes + {node};
      for i := 0 to cfg.replicas
        invariant nodes == before + {node} && NoDup(points)
        invariant PartlyCanonical(cfg, before, node, i, points)
      {
        points := points + [PointOf(cfg, node, i)];
      }
      forall p
        ensures p in points <==> Belongs(cfg, nodes, p)
      {
        assert p in points <==>
          Belongs(cfg, before, p) || (p.replica < cfg.replicas && p == PointOf(cfg, node, p.replica));
      }
    }

    /** Removes a member; an empty or unknown name is refused and changes nothing. */
    method Remove(node: string) returns (ok: bool)
      requires Valid()
      modifies this`points, this`nodes
      ensures Valid()
      ensures ok <==> node in old(nodes)
      ensures nodes == old(nodes) - {node}
    {
      if node == "" || node !in nodes {
        return false;
      }
      FilterSorted(points, node);
      var slice := new Point[|points|](i requires 0 <= i < |points| reads this => points[i]);
      assert slice[..] == points;
      var kept := FilterInPlace(slice, node);
      points := slice[..kept];
      nodes := nodes - {node};
      ok := true;
    }

    /** The owner of a key: binary search for the first point at or after its hash, wrapping to the first. */
    method Get(key: string) returns (owner: string)
      requires Valid()
      ensures owner == Owner(cfg, nodes, key)
    {
      OwnerExists(cfg, nodes, key);
      if key == "" {
        return "";
      }
      if |points| == 0 {
        NoPoints(cfg, nodes);
        return "";
      }
      var h := cfg.hash(key);
      var lo, hi := 0, |points|;
      SortedByHash(points);
      while lo < hi
        invariant 0 <= lo <= hi <= |points|
        invariant forall i :: 0 <= i < lo ==> points[i].hash < h
        invariant forall i :: hi <= i < |points| ==> points[i].hash >= h
      {
        var mid := lo + (hi - lo) / 2;
        if points[mid].hash >= h {
          hi := mid;
        } else {
          lo := mid + 1;
        }
      }
      SelectedIsOwner(cfg, nodes, points, h, lo);
      var k := if lo == |points| then 0 else lo;
      OwnerIs(cfg, nodes, key, points[k]);
      owner := points[k].node;
    }
  }

  lemma SortedNoDup(points: seq<Point>)
    requires Sorted(points)
    ensures NoDup(points)
  {
  }

  lemma SortedByHash(points: seq<Point>)
    requires Sorted(points)
    ensures forall i, j :: 0 <= i < j < |points| ==> points[i].hash <= points[j].hash
  {
  }

  lemma NoPoints(cfg: Config, nodes: set<string>)
    requires Canonical(cfg, nodes, []) && cfg.replicas > 0
    ensures nodes == {}
  {
    forall node | node in nodes
      ensures false
    {
      assert Belongs(cfg, nodes, PointOf(cfg, node, 0));
    }
  }
}
