/**
 * The fixed seven-node binary tree that the breadth-first and depth-first
 * search animations walk. A node object is modelled by its fields other than
 * its links; the links never change after `createFixedTree`, so they are the
 * `Children` relation on node ids, and the nodes live in an array indexed by id.
 */
module Trees {

  datatype NodeState = Default | Current | Visited | Processing

  datatype TreeNode = TreeNode(id: int, value: int, visited: bool, state: NodeState)

  /** The number of nodes `createFixedTree` builds. */
  const NodeCount: nat := 7

  /** The id of the node `createFixedTree` returns. */
  const Root: int := 0

  predicate ValidId(id: int)
  {
    0 <= id < NodeCount
  }

  /** The links of `createFixedTree`: 0 -> [1, 2], 1 -> [3, 4], 2 -> [5, 6]; nodes 3 to 6 are leaves. */
  function Children(id: int): (r: seq<int>)
    ensures forall k :: 0 <= k < |r| ==> id < r[k] < NodeCount && ValidId(r[k])
  {
    if id == 0 then [1, 2] else if id == 1 then [3, 4] else if id == 2 then [5, 6] else []
  }

  /** Every node but the root has exactly one parent, `(c - 1) / 2`; the root has none. */
  lemma ParentOf(p: int, c: int)
    requires ValidId(p)
    ensures c in Children(p) <==> 0 < c < NodeCount && p == (c - 1) / 2
  {
    if 0 < c < NodeCount && p == (c - 1) / 2 {
      assert c == 2 * p + 1 || c == 2 * p + 2;
    }
  }

  /** `createFixedTree()`: seven unvisited nodes in state `default`, node k with id and value k. */
  function CreateFixedTree(): (r: seq<TreeNode>)
    ensures |r| == NodeCount
    ensures forall k :: 0 <= k < |r| ==> r[k].id == k && r[k].value == r[k].id
    ensures forall k :: 0 <= k < |r| ==> !r[k].visited && r[k].state == Default
  {
    seq(NodeCount, k requires 0 <= k < NodeCount => TreeNode(k, k, false, Default))
  }

  /** The subtree at `id` in pre-order, written out for the fixed tree. */
  function PreOrder(id: int): (r: seq<int>)
    requires ValidId(id)
    ensures |r| > 0 && r[0] == id
    ensures forall k :: k in r ==> id <= k < NodeCount
  {
    if id == 0 then [0, 1, 3, 4, 2, 5, 6]
    else if id == 1 then [1, 3, 4]
    else if id == 2 then [2, 5, 6]
    else [id]
  }

  /** The subtrees at `ks`, one after the other in pre-order. */
  function Forest(ks: seq<int>): (r: seq<int>)
    requires forall k :: 0 <= k < |ks| ==> ValidId(ks[k])
  {
    if ks == [] then [] else Forest(ks[..|ks| - 1]) + PreOrder(ks[|ks| - 1])
  }

  /** Two subtrees side by side. */
  lemma ForestPair(a: int, b: int)
    requires ValidId(a) && ValidId(b)
    ensures Forest([a, b]) == PreOrder(a) + PreOrder(b)
  {
    assert [a, b][..1] == [a] && [a][..0] == [];
    assert Forest([a]) == Forest([]) + PreOrder(a);
    assert Forest([a, b]) == Forest([a]) + PreOrder(b);
  }

  /** The table is the pre-order of `Children`: the node first, then the subtree of each child, left to right. */
  lemma PreOrderOfChildren(id: int)
    requires ValidId(id)
    ensures PreOrder(id) == [id] + Forest(Children(id))
    ensures id !in Forest(Children(id))
  {
    var kids := Children(id);
    if |kids| == 2 {
      ForestPair(kids[0], kids[1]);
      assert kids == [kids[0], kids[1]];
    }
  }

  /**
   * Walking the children of `id` left to right: the subtree at the next child is
   * inside the subtree at `id`, does not hold `id`, and shares no node with the
   * subtrees already walked.
   */
  lemma ChildSubtrees(id: int, c: int)
    requires ValidId(id) && 0 <= c < |Children(id)|
    ensures id !in PreOrder(Children(id)[c])
    ensures forall k :: k in PreOrder(Children(id)[c]) ==> k in PreOrder(id)
    ensures forall k :: k in PreOrder(Children(id)[c]) ==> k !in Forest(Children(id)[..c])
    ensures Forest(Children(id)[..c + 1]) == Forest(Children(id)[..c]) + PreOrder(Children(id)[c])
  {
    var kids := Children(id);
    ChildPrefixes(id);
    SubtreesApart(id);
    PreOrderOfChildren(id);
    if c == 0 {
      assert Forest(kids[..c + 1]) == PreOrder(kids[0]) == Forest(kids[..c]) + PreOrder(kids[c]);
    } else {
      assert Forest(kids[..c + 1]) == PreOrder(kids[0]) + PreOrder(kids[1]) == Forest(kids[..c]) + PreOrder(kids[c]);
    }
  }

  /** The forests of the first children of a node with two children. */
  lemma ChildPrefixes(id: int)
    requires ValidId(id) && |Children(id)| == 2
    ensures Forest(Children(id)[..0]) == []
    ensures Forest(Children(id)[..1]) == PreOrder(Children(id)[0])
    ensures Forest(Children(id)[..2]) == Forest(Children(id))
    ensures Forest(Children(id)) == PreOrder(Children(id)[0]) + PreOrder(Children(id)[1])
  {
    var kids := Children(id);
    assert kids[..0] == [];
    assert kids[..1] == [kids[0]] && kids[..1][..0] == [];
    assert kids[..2] == kids == [kids[0], kids[1]];
    ForestPair(kids[0], kids[1]);
  }

  /** The subtrees at the two children of a node share no node. */
  lemma SubtreesApart(id: int)
    requires ValidId(id) && |Children(id)| == 2
    ensures forall k :: k in PreOrder(Children(id)[1]) ==> k !in PreOrder(Children(id)[0])
  {
    if id == 0 {
      assert PreOrder(1) == [1, 3, 4] && PreOrder(2) == [2, 5, 6];
    } else if id == 1 {
      assert PreOrder(3) == [3] && PreOrder(4) == [4];
    } else {
      assert PreOrder(5) == [5] && PreOrder(6) == [6];
    }
  }

  /** The subtrees of the first children are among those of all the children. */
  lemma ForestPrefix(id: int, c: int)
    requires ValidId(id) && 0 <= c < |Children(id)|
    ensures forall k :: k in Forest(Children(id)[..c + 1]) ==> k in Forest(Children(id))
  {
    var kids := Children(id);
    ForestPair(kids[0], kids[1]);
    assert kids == [kids[0], kids[1]];
    if c == 0 {
      assert kids[..1] == [kids[0]] && kids[..1][..0] == [];
      assert Forest(kids[..1]) == PreOrder(kids[0]);
    } else {
      assert kids[..c + 1] == kids;
    }
  }

  /**
   * `resetStates(node)` from `initialize`: tag `node` `default` and unvisited, then
   * do the same for each child's subtree, left to right. Every node of the subtree
   * at `id` ends `default` and unvisited; nothing else changes.
   */
  method ResetStates(nodes: array<TreeNode>, id: int)
    requires nodes.Length == NodeCount && ValidId(id)
    modifies nodes
    ensures forall k :: 0 <= k < NodeCount ==>
      nodes[k] == if k in PreOrder(id) then old(nodes[k]).(state := Default, visited := false) else old(nodes[k])
    decreases NodeCount - id
  {
    nodes[id] := nodes[id].(state := Default, visited := false);
    var kids := Children(id);
    for c := 0 to |kids|
      invariant forall k :: 0 <= k < NodeCount ==>
        nodes[k] == if k == id || k in Forest(kids[..c]) then old(nodes[k]).(state := Default, visited := false) else old(nodes[k])
    {
      ResetStates(nodes, kids[c]);
      ChildSubtrees(id, c);
    }
    assert kids[..|kids|] == kids;
    PreOrderOfChildren(id);
  }

  /**
   * `entered` lists distinct nodes of `within`; they are the only nodes whose
   * record changed from `before` to `after`, only their state changed, and none
   * of them is `default` in `after`.
   */
  ghost predicate Walked(before: seq<TreeNode>, after: seq<TreeNode>, entered: seq<int>, within: seq<int>)
  {
    |before| == NodeCount && |after| == NodeCount &&
    (forall a, b :: 0 <= a < b < |entered| ==> entered[a] != entered[b]) &&
    (forall k :: 0 <= k < |entered| ==> entered[k] in within && ValidId(entered[k])) &&
    (forall k :: 0 <= k < NodeCount && k !in entered ==> after[k] == before[k]) &&
    (forall k :: 0 <= k < NodeCount && k in entered ==>
      after[k] == before[k].(state := after[k].state) && after[k].state != Default)
  }

  /** Every node of `nodes` has state `tag` in `s`. */
  ghost predicate Tagged(s: seq<TreeNode>, nodes: seq<int>, tag: NodeState)
    requires |s| == NodeCount
  {
    forall k :: k in nodes && ValidId(k) ==> s[k].state == tag
  }

  /**
   * Two walks over disjoint sets of nodes, one after the other, make one walk;
   * the nodes each walk started from `default` were `default` at the start of
   * both, and nodes each walk left `visited` are `visited` at the end of both.
   */
  lemma WalkedThen(a: seq<TreeNode>, b: seq<TreeNode>, c: seq<TreeNode>, e1: seq<int>, e2: seq<int>,
                    within1: seq<int>, within2: seq<int>, within: seq<int>)
    requires Walked(a, b, e1, within1) && Walked(b, c, e2, within2)
    requires forall k :: k in within1 ==> k in within
    requires forall k :: k in within2 ==> k in within
    requires forall k :: k in e2 ==> k !in e1
    ensures Walked(a, c, e1 + e2, within)
    ensures Tagged(a, e1, Default) && Tagged(b, e2, Default) ==> Tagged(a, e1 + e2, Default)
    ensures Tagged(b, e1, Visited) && Tagged(c, e2, Visited) ==> Tagged(c, e1 + e2, Visited)
  {
    var e := e1 + e2;
    forall x, y | 0 <= x < y < |e|
      ensures e[x] != e[y]
    {
      if y >= |e1| && x < |e1| {
        assert e[y] in e2;
      }
    }
  }

  /** A walk over `entered` leaves alone the tags of nodes outside it. */
  lemma WalkKeepsTags(a: seq<TreeNode>, b: seq<TreeNode>, entered: seq<int>, within: seq<int>, nodes: seq<int>, tag: NodeState)
    requires Walked(a, b, entered, within)
    requires forall k :: k in nodes ==> k !in within
    requires Tagged(a, nodes, tag)
    ensures Tagged(b, nodes, tag)
  {
  }

  /** Tagging a node of a walk with a state other than `default` keeps the walk. */
  lemma RetagWalked(a: seq<TreeNode>, b: seq<TreeNode>, entered: seq<int>, within: seq<int>, id: int, rest: seq<int>, tag: NodeState)
    requires Walked(a, b, entered, within) && ValidId(id) && id in entered && tag != Default
    ensures Walked(a, b[id := b[id].(state := tag)], entered, within)
    ensures Tagged(b, rest, tag) ==> Tagged(b[id := b[id].(state := tag)], [id] + rest, tag)
  {
  }

  /** A walk within some nodes is a walk within any nodes that include them. */
  lemma WalkedWithin(a: seq<TreeNode>, b: seq<TreeNode>, entered: seq<int>, within: seq<int>, wider: seq<int>)
    requires Walked(a, b, entered, within)
    requires forall k :: k in within ==> k in wider
    ensures Walked(a, b, entered, wider)
  {
  }

  /** The walk from the root covers every node of the tree. */
  lemma WholeTree(s: seq<TreeNode>, entered: seq<int>, tag: NodeState)
    requires |s| == NodeCount && entered == PreOrder(Root) && Tagged(s, entered, tag)
    ensures forall k :: 0 <= k < NodeCount ==> s[k].state == tag
  {
    forall k | 0 <= k < NodeCount
      ensures s[k].state == tag
    {
      assert k in entered;
    }
  }

  /** Concatenation is associative. */
  lemma AppendAssoc<T>(a: seq<T>, b: seq<T>, c: seq<T>)
    ensures (a + b) + c == a + (b + c)
  {
  }
}
