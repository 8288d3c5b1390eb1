/**
 * The search nodes of the `graph.search` finders: each vertex reached by a search has a node
 * holding its cost, its parent node and its visited flag. A node table maps vertex keys to
 * nodes; a parent node is named by its vertex key.
 */
module SearchNodes {
  import opened Wrappers
  import opened Costs
  import opened Paths

  datatype SearchNode = SearchNode(cost: Cost, parent: Option<Key>, visited: bool)

  /**
   * A node as `new SearchNode(v)` makes it: cost +infinity, no parent, not visited.
   * `SearchNode.java` is not part of this model; these initial values are what both finders
   * rely on (only the source's cost is set before the search).
   */
  const Fresh := SearchNode(Inf, None, false)

  /** The costs of a node table, as a cost table. */
  function NodeCosts(nodes: map<Key, SearchNode>): (d: map<Key, Cost>)
    ensures forall k :: CostOf(d, k) == if k in nodes then nodes[k].cost else Inf
  {
    map k | k in nodes :: nodes[k].cost
  }

  /** The parent links of a node table. */
  function Parents(nodes: map<Key, SearchNode>): (parent: map<Key, Key>)
    ensures forall k :: k in parent <==> k in nodes && nodes[k].parent.Some?
    ensures forall k | k in parent :: parent[k] == nodes[k].parent.value
  {
    map k | k in nodes && nodes[k].parent.Some? :: nodes[k].parent.value
  }

  /** The node of `k` described by the tables of a search. */
  function NodeOf(d: map<Key, Cost>, parent: map<Key, Key>, visited: set<Key>, k: Key): SearchNode
  {
    SearchNode(CostOf(d, k), if k in parent then Some(parent[k]) else None, k in visited)
  }

  /** The node table holding a node for each key of `keys`, read off the tables of a search. */
  function NodeTable(keys: set<Key>, d: map<Key, Cost>, parent: map<Key, Key>, visited: set<Key>): (nodes: map<Key, SearchNode>)
    ensures nodes.Keys == keys
    ensures forall k | k in keys :: nodes[k] == NodeOf(d, parent, visited, k)
  {
    map k | k in keys :: NodeOf(d, parent, visited, k)
  }

  /**
   * A node table read off a shortest-path tree, with a node for at least every vertex that has
   * a finite cost or a parent, carries the same tree.
   */
  lemma NodeTableKeepsTree(g: Adj, s: Key, keys: set<Key>, d: map<Key, Cost>, parent: map<Key, Key>, visited: set<Key>)
    requires ShortestPathTree(g, s, d, parent)
    requires forall k | CostOf(d, k).Fin? || k in parent :: k in keys
    ensures Parents(NodeTable(keys, d, parent, visited)) == parent
    ensures ShortestPathTree(g, s, NodeCosts(NodeTable(keys, d, parent, visited)), parent)
  {
    NodeTableParents(keys, d, parent, visited);
    NodeTableCosts(keys, d, parent, visited);
    TreeKeepsCosts(g, s, d, NodeCosts(NodeTable(keys, d, parent, visited)), parent);
  }

  /**
   * Proof helper: the parent links of a node table with a node for every key that has a
   * parent are those links.
   */
  lemma NodeTableParents(keys: set<Key>, d: map<Key, Cost>, parent: map<Key, Key>, visited: set<Key>)
    requires forall k | k in parent :: k in keys
    ensures Parents(NodeTable(keys, d, parent, visited)) == parent
  {
    var nodes := NodeTable(keys, d, parent, visited);
    var p := Parents(nodes);
    assert p.Keys == parent.Keys by {
      forall k ensures k in p <==> k in parent {
        if k in parent {
          assert nodes[k] == NodeOf(d, parent, visited, k);
        }
      }
    }
    forall k | k in p ensures p[k] == parent[k] {
      assert nodes[k] == NodeOf(d, parent, visited, k);
    }
  }

  /** Proof helper: the costs of a node table with a node for every key of finite cost are those costs. */
  lemma NodeTableCosts(keys: set<Key>, d: map<Key, Cost>, parent: map<Key, Key>, visited: set<Key>)
    requires forall k | CostOf(d, k).Fin? :: k in keys
    ensures forall k :: CostOf(NodeCosts(NodeTable(keys, d, parent, visited)), k) == CostOf(d, k)
  {
    var nodes := NodeTable(keys, d, parent, visited);
    forall k ensures CostOf(NodeCosts(nodes), k) == CostOf(d, k) {
      if k in keys {
        assert nodes[k] == NodeOf(d, parent, visited, k);
      }
    }
  }

  /** Creating a fresh node for a key without one changes neither the costs nor the parents. */
  lemma FreshNodeKeepsTree(nodes: map<Key, SearchNode>, v: Key)
    requires v !in nodes
    ensures forall k :: CostOf(NodeCosts(nodes[v := Fresh]), k) == CostOf(NodeCosts(nodes), k)
    ensures Parents(nodes[v := Fresh]) == Parents(nodes)
  {
  }
}
