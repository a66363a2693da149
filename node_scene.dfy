/** The bookkeeping of `NodeScene`: the table of live clusters, whose ids come
    from a fixed pool of 1 to 18, and the hit-test rule that lets a cluster's
    layer shield the record nodes beneath it. */
module NodeScenes {
  import opened Wrappers
  import opened EntityManagers

  /** `Constants.maximumNumberOfClusters`. */
  const MaximumNumberOfClusters: int := 18

  /** The ids a cluster may have. */
  predicate InPool(id: int) {
    1 <= id <= MaximumNumberOfClusters
  }

  /** The kinds of scene node the hit test tells apart. */
  datatype NodeKind = ClusterLayerNode | RecordNode | OtherNode

  /** A scene node as the hit test sees it: its kind, and whether its shape
      contains the touched point (the geometry itself is not modelled). */
  datatype SceneNode = SceneNode(name: string, kind: NodeKind, containsPoint: bool)

  /** A node that stops the hit test: a cluster layer or a record node that
      contains the point. */
  predicate Decisive(n: SceneNode) {
    n.containsPoint && (n.kind == ClusterLayerNode || n.kind == RecordNode)
  }

  /** The ids from 1 to `n`. */
  function Pool(n: nat): (ids: set<int>)
    ensures forall id :: id in ids <==> 1 <= id <= n
    ensures |ids| == n
  {
    if n == 0 then {} else Pool(n - 1) + {n}
  }

  /** A subset is no larger than its superset. */
  lemma SubsetNoLarger(a: set<int>, b: set<int>)
    requires a <= b
    ensures |a| <= |b|
  {
    assert b == a + (b - a);
    assert a * (b - a) == {};
  }

  class NodeScene {
    var clusterForID: map<int, NodeCluster>

    /** Every cluster is stored under its own id, which is from the pool. */
    ghost predicate Valid()
      reads this
    {
      forall id :: id in clusterForID ==> InPool(id) && clusterForID[id].id == id
    }

    constructor ()
      ensures Valid() && clusterForID == map[]
    {
      clusterForID := map[];
    }

    /** There are never more clusters than ids in the pool. */
    lemma AtMostEighteenClusters()
      requires Valid()
      ensures |clusterForID| <= MaximumNumberOfClusters
    {
      SubsetNoLarger(clusterForID.Keys, Pool(MaximumNumberOfClusters));
    }

    /** `availableClusterID()`: the smallest id of the pool without a cluster,
      none when every id is taken. */
    method AvailableClusterID() returns (r: Option<int>)
      ensures r.None? <==> forall id :: InPool(id) ==> id in clusterForID
      ensures r.Some? ==> InPool(r.value) && r.value !in clusterForID
                          && forall id :: 1 <= id < r.value ==> id in clusterForID
    {
      for id := 1 to MaximumNumberOfClusters + 1
        invariant forall j :: 1 <= j < id ==> j in clusterForID
      {
        if id !in clusterForID {
          return Some(id);
        }
      }
      return None;
    }

    /** `createCluster(with:)`: a new cluster under the smallest free id, or
      none, with the table unchanged, when the pool is exhausted. */
    method CreateCluster(entity: RecordEntity) returns (cluster: NodeCluster?)
      requires Valid()
      modifies this
      ensures Valid()
      ensures cluster == null <==> forall id :: InPool(id) ==> id in old(clusterForID)
      ensures cluster == null ==> clusterForID == old(clusterForID)
      ensures cluster != null ==> fresh(cluster) && InPool(cluster.id) && cluster.id !in old(clusterForID)
                                  && (forall id :: 1 <= id < cluster.id ==> id in old(clusterForID))
                                  && clusterForID == old(clusterForID)[cluster.id := cluster]
    {
      var id := AvailableClusterID();
      if id.None? {
        return null;
      }
      cluster := new NodeCluster(id.value);
      clusterForID := clusterForID[id.value := cluster];
    }

    /** `remove(cluster:)`: only the entry under the cluster's id goes. */
    method RemoveCluster(cluster: NodeCluster)
      requires Valid()
      modifies this
      ensures Valid()
      ensures clusterForID == old(clusterForID) - {cluster.id}
    {
      clusterForID := clusterForID - {cluster.id};
    }

    /** `nodeCluster(for:)`: the entity's own cluster when it has one, else a
      new one. */
    method NodeClusterFor(entity: RecordEntity) returns (cluster: NodeCluster?)
      requires Valid()
      modifies this
      ensures Valid()
      ensures old(entity.cluster) != null ==> cluster == old(entity.cluster) && clusterForID == old(clusterForID)
      ensures old(entity.cluster) == null ==>
                (cluster == null <==> forall id :: InPool(id) ==> id in old(clusterForID))
                && (cluster != null ==> fresh(cluster) && clusterForID == old(clusterForID)[cluster.id := cluster])
    {
      if entity.cluster != null {
        return entity.cluster;
      }
      cluster := CreateCluster(entity);
    }
  }

  /** `nodes(at:)`: walking the nodes at the point front to back, a cluster
      layer containing it yields nothing and a record node containing it
      yields that node alone. */
  method NodesAt(nodes: seq<SceneNode>) returns (hits: seq<SceneNode>)
    ensures |hits| <= 1
    ensures hits == [] <==> forall i :: 0 <= i < |nodes| && Decisive(nodes[i]) && (forall j :: 0 <= j < i ==> !Decisive(nodes[j]))
                              ==> nodes[i].kind == ClusterLayerNode
    ensures hits != [] ==> exists i :: 0 <= i < |nodes| && hits[0] == nodes[i] && Decisive(nodes[i])
                            && nodes[i].kind == RecordNode && forall j :: 0 <= j < i ==> !Decisive(nodes[j])
  {
    for i := 0 to |nodes|
      invariant forall j :: 0 <= j < i ==> !Decisive(nodes[j])
    {
      var node := nodes[i];
      if node.kind == ClusterLayerNode && node.containsPoint {
        return [];
      }
      if node.kind == RecordNode && node.containsPoint {
        return [node];
      }
    }
    return [];
  }
}
