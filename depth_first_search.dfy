/**
 * The depth-first search animation: a recursive pre-order walk of the fixed
 * tree that tags each node it enters `current`, then `processing`, walks the
 * children whose state is still `default` left to right, and finally tags the
 * node `visited`, with a suspension after every tag.
 */
module DepthFirstSearch {
  import opened Steps
  import opened Trees

  /**
   * The state writes of one call on `id`: first `current` then `processing` on
   * `id`, then only writes inside the subtrees of its children, and `visited`
   * on `id` last; a call that returns has made all of them. No write tags a
   * node `default`.
   */
  ghost predicate CallWrites(id: int, writes: seq<(int, NodeState)>, returned: bool)
    requires ValidId(id)
  {
    (forall k :: 0 <= k < |writes| ==> writes[k].0 in PreOrder(id) && writes[k].1 != Default) &&
    (|writes| > 0 ==> writes[0] == (id, Current)) &&
    (|writes| > 1 ==> writes[1] == (id, Processing)) &&
    (forall k :: 2 <= k < |writes| && writes[k].0 == id ==> k == |writes| - 1 && writes[k].1 == Visited) &&
    (returned ==> |writes| >= 3 && writes[|writes| - 1] == (id, Visited))
  }

  /** The writes of the children's calls: inside the subtree at `id`, never on `id`, never `default`. */
  ghost predicate BelowWrites(id: int, writes: seq<(int, NodeState)>)
    requires ValidId(id)
  {
    forall k :: 0 <= k < |writes| ==> writes[k].0 in PreOrder(id) && writes[k].0 != id && writes[k].1 != Default
  }

  /** The writes of the next child's call join those of the earlier children's calls. */
  lemma BelowWritesThen(id: int, c: int, writes: seq<(int, NodeState)>, w: seq<(int, NodeState)>)
    requires ValidId(id) && 0 <= c < |Children(id)| && BelowWrites(id, writes)
    requires forall k :: 0 <= k < |w| ==> w[k].0 in PreOrder(Children(id)[c]) && w[k].1 != Default
    ensures BelowWrites(id, writes + w)
  {
    ChildSubtrees(id, c);
    forall k | |writes| <= k < |writes + w|
      ensures (writes + w)[k] == w[k - |writes|]
    {
    }
  }

  /**
   * One turn of the child loop of the call on `id`, on the tree: `a` before the
   * loop, `mid` before the turn, `b` after it. The walk of the turn joins the walk
   * of the earlier turns; on a tree whose children's subtrees were all `default`,
   * a turn that returns walks exactly the next child's subtree.
   */
  lemma ChildStep(id: int, c: int, a: seq<TreeNode>, mid: seq<TreeNode>, b: seq<TreeNode>,
                  below: seq<int>, e: seq<int>, returned: bool)
    requires ValidId(id) && 0 <= c < |Children(id)|
    requires Walked(a, mid, below, Forest(Children(id)[..c])) && Tagged(a, below, Default) && Tagged(mid, below, Visited)
    requires Tagged(a, Forest(Children(id)), Default) ==> below == Forest(Children(id)[..c])
    requires Walked(mid, b, e, PreOrder(Children(id)[c])) && Tagged(mid, e, Default)
    requires returned ==> Tagged(b, e, Visited)
    requires returned && Tagged(mid, PreOrder(Children(id)[c]), Default) ==> e == PreOrder(Children(id)[c])
    ensures Walked(a, b, below + e, Forest(Children(id)[..c + 1]))
    ensures Walked(a, b, below + e, Forest(Children(id)))
    ensures Tagged(a, below + e, Default)
    ensures returned ==> Tagged(b, below + e, Visited)
    ensures returned && Tagged(a, Forest(Children(id)), Default) ==> below + e == Forest(Children(id)[..c + 1])
  {
    var kids := Children(id);
    PreOrderOfChildren(id);
    ChildSubtrees(id, c);
    ForestPrefix(id, c);
    WalkedThen(a, mid, b, below, e, Forest(kids[..c]), PreOrder(kids[c]), Forest(kids[..c + 1]));
    WalkedWithin(a, b, below + e, Forest(kids[..c + 1]), Forest(kids));
    if Tagged(a, Forest(kids), Default) {
      WalkKeepsTags(a, mid, below, Forest(kids[..c]), PreOrder(kids[c]), Default);
    }
  }

  /** The writes of a call: its two entry tags, then those of the children's calls, then `visited`. */
  lemma CallWritesJoin(id: int, below: seq<(int, NodeState)>)
    requires ValidId(id) && BelowWrites(id, below)
    ensures CallWrites(id, [(id, Current), (id, Processing)] + below, false)
    ensures CallWrites(id, [(id, Current), (id, Processing)] + (below + [(id, Visited)]), true)
  {
  }

  /** The module state of the depth-first search file. */
  class DepthFirstSearchAnimation {
    const nodes: array<TreeNode>
    const ctl: Runner
    ghost var log: seq<(int, NodeState)>   // every state write of the current run, in order

    /** The state of the module when it is loaded: seven node slots and clear flags. */
    constructor ()
      ensures fresh(ctl) && fresh(nodes) && nodes.Length == NodeCount
      ensures !ctl.isRunning && !ctl.hasSink && !ctl.timerSet && ctl.lines == []
    {
      nodes := new TreeNode[NodeCount](k => TreeNode(k, k, false, Default));
      ctl := new Runner();
      log := [];
    }

    /**
     * `initialize`: set the running flag, register the sink, build the fixed tree
     * and reset every node of it to `default` and unvisited.
     */
    method Initialize(sink: bool)
      requires nodes.Length == NodeCount
      modifies nodes, ctl
      ensures nodes[..] == CreateFixedTree() && Tagged(nodes[..], PreOrder(Root), Default)
      ensures ctl.isRunning && ctl.hasSink == sink
      ensures ctl.timerSet == old(ctl.timerSet) && ctl.lines == old(ctl.lines)
    {
      ctl.Attach(sink, true);
      Build();
      ghost var tree := nodes[..];
      ResetStates(nodes, Root);
      assert forall k :: 0 <= k < NodeCount ==> nodes[k] == tree[k];
    }

    /** `createFixedTree()`: fill the slots with the seven fresh nodes. */
    method Build()
      requires nodes.Length == NodeCount
      modifies nodes
      ensures nodes[..] == CreateFixedTree()
    {
      var tree := CreateFixedTree();
      for k := 0 to NodeCount
        invariant forall q :: 0 <= q < k ==> nodes[q] == tree[q]
      {
        nodes[k] := tree[k];
      }
    }

    /**
     * `animate`: set the running flag and walk the tree from the root. On the
     * fixed tree just initialized, a run that is never interrupted enters the
     * nodes in the order 0, 1, 3, 4, 2, 5, 6 and leaves every node `visited`.
     */
    method Animate(stops: StopOracle) returns (outcome: Outcome, ghost entered: seq<int>)
      requires nodes.Length == NodeCount
      modifies nodes, ctl, this`log
      ensures ctl.hasSink == old(ctl.hasSink) && ctl.stops == stops
      ensures outcome != Failed
      ensures NeverStops(stops) ==> outcome == Finished
      ensures !ctl.hasSink ==> entered == [] && nodes[..] == old(nodes[..]) && log == []
      ensures ctl.hasSink && stops == 0 ==> outcome == Stopped && entered == [] && nodes[..] == old(nodes[..])
      ensures Walked(old(nodes[..]), nodes[..], entered, PreOrder(Root))
      ensures CallWrites(Root, log, outcome == Finished && ctl.hasSink)
      ensures outcome == Finished && ctl.hasSink ==>
        Tagged(nodes[..], entered, Visited) && |ctl.lines| > 0 && ctl.lines[|ctl.lines| - 1] == IdleLine
      ensures outcome == Finished && ctl.hasSink && Tagged(old(nodes[..]), PreOrder(Root), Default) ==>
        entered == [0, 1, 3, 4, 2, 5, 6] && forall k :: 0 <= k < NodeCount ==> nodes[k].state == Visited
    {
      log := [];
      ctl.Start(stops);
      ghost var writes;
      outcome, entered, writes := Dfs(Root);
      assert log == writes;
      if outcome == Finished && ctl.hasSink && Tagged(old(nodes[..]), PreOrder(Root), Default) {
        WholeTree(nodes[..], entered, Visited);
      }
    }

    /** `cleanup`: stop the run, cancel the pending timer, send the idle line. */
    method Cleanup()
      modifies ctl
      ensures !ctl.isRunning && !ctl.timerSet && ctl.hasSink == old(ctl.hasSink)
      ensures ctl.lines == old(ctl.lines) + (if ctl.hasSink then [IdleLine] else [])
    {
      ctl.Cleanup();
    }

    /** Tag one node. */
    method SetState(id: int, state: NodeState)
      requires nodes.Length == NodeCount && ValidId(id)
      modifies nodes, this`log
      ensures nodes[..] == old(nodes[..])[id := old(nodes[id]).(state := state)]
      ensures log == old(log) + [(id, state)]
    {
      nodes[id] := nodes[id].(state := state);
      log := log + [(id, state)];
    }

    /**
     * `dfs(node)`: with no sink registered, return at once. Otherwise enter the
     * node, walk its children, then tag it `visited` and send the idle line. The
     * nodes it enters are the node and, through the recursive calls, nodes below
     * it that were `default`; on a subtree that is all `default`, a call that
     * returns has entered exactly the subtree, in pre-order.
     */
    method Dfs(id: int) returns (outcome: Outcome, ghost entered: seq<int>, ghost writes: seq<(int, NodeState)>)
      requires nodes.Length == NodeCount && ValidId(id)
      modifies nodes, ctl, this`log
      ensures ctl.hasSink == old(ctl.hasSink) && ctl.stops == old(ctl.stops)
      ensures !ctl.hasSink ==>
        outcome == Finished && entered == [] && writes == [] && nodes[..] == old(nodes[..]) && ctl.lines == old(ctl.lines)
      ensures ctl.hasSink && !old(ctl.isRunning) ==> outcome == Failed && entered == []
      ensures old(ctl.isRunning) ==> outcome != Failed
      ensures old(ctl.isRunning) && NeverStops(ctl.stops) ==> outcome == Finished
      ensures ctl.hasSink && old(ctl.isRunning) && old(ctl.resumed) == ctl.stops ==>
        outcome == Stopped && entered == [] && nodes[..] == old(nodes[..])
      ensures outcome != Finished ==> !ctl.isRunning
      ensures Walked(old(nodes[..]), nodes[..], entered, PreOrder(id))
      ensures |entered| > 0 ==> entered[0] == id && Tagged(old(nodes[..]), entered[1..], Default)
      ensures log == old(log) + writes
      ensures CallWrites(id, writes, outcome == Finished && ctl.hasSink)
      ensures outcome == Finished && ctl.hasSink ==>
        ctl.isRunning && Tagged(nodes[..], entered, Visited) && |ctl.lines| > 0 && ctl.lines[|ctl.lines| - 1] == IdleLine
      ensures outcome == Finished && ctl.hasSink && Tagged(old(nodes[..]), PreOrder(id), Default) ==> entered == PreOrder(id)
      decreases NodeCount - id, 3
    {
      if !ctl.hasSink {
        return Finished, [], [];
      }
      outcome, writes := Enter(id);
      entered := if |writes| > 0 then [id] else [];
      if outcome != Finished {
        return;
      }
      ghost var rest, below;
      outcome, below, rest := Descend(id, old(nodes[..]));
      entered := [id] + below;
      AppendAssoc(old(log), writes, rest);
      writes := writes + rest;
    }

    /**
     * Lines 1 to 3 of `dfs`: announce the call, tag the node `current`, then
     * `processing`, with a suspension after each step. `writes` are the tags
     * made before the run returned or was interrupted.
     */
    method Enter(id: int) returns (outcome: Outcome, ghost writes: seq<(int, NodeState)>)
      requires nodes.Length == NodeCount && ValidId(id)
      modifies nodes, ctl, this`log
      ensures ctl.hasSink == old(ctl.hasSink) && ctl.stops == old(ctl.stops)
      ensures !old(ctl.isRunning) ==> outcome == Failed && writes == []
      ensures old(ctl.isRunning) ==> outcome != Failed
      ensures old(ctl.isRunning) && NeverStops(ctl.stops) ==> outcome == Finished
      ensures old(ctl.isRunning) && old(ctl.resumed) == ctl.stops ==>
        outcome == Stopped && writes == [] && nodes[..] == old(nodes[..])
      ensures outcome != Finished ==> !ctl.isRunning
      ensures outcome == Finished ==> ctl.isRunning && writes == [(id, Current), (id, Processing)]
      ensures log == old(log) + writes && CallWrites(id, writes, false)
      ensures Walked(old(nodes[..]), nodes[..], if |writes| > 0 then [id] else [], PreOrder(id))
      ensures outcome == Finished ==> nodes[id].state == Processing
    {
      writes := [];
      outcome := ctl.Announce(1);
      if outcome != Finished {
        return;
      }
      ctl.Emit(2);
      SetState(id, Current);
      writes := [(id, Current)];
      outcome := ctl.Sleep();
      if outcome != Finished {
        return;
      }
      ctl.Emit(3);
      SetState(id, Processing);
      writes := writes + [(id, Processing)];
      outcome := ctl.Sleep();
    }

    /**
     * Lines 5 to 7 and 126 to 130 of `dfs`, once the node is entered: walk the
     * children, tag the node `visited`, suspend, and send the idle line. `start`
     * is the tree as the call on `id` found it.
     */
    method Descend(id: int, ghost start: seq<TreeNode>) returns (outcome: Outcome, ghost below: seq<int>, ghost writes: seq<(int, NodeState)>)
      requires nodes.Length == NodeCount && ValidId(id)
      requires ctl.hasSink && ctl.isRunning
      requires Walked(start, nodes[..], [id], PreOrder(id)) && nodes[id].state == Processing
      modifies nodes, ctl, this`log
      ensures ctl.hasSink && ctl.stops == old(ctl.stops)
      ensures outcome != Failed
      ensures NeverStops(ctl.stops) ==> outcome == Finished
      ensures outcome == Finished <==> ctl.isRunning
      ensures Walked(start, nodes[..], [id] + below, PreOrder(id))
      ensures Tagged(start, below, Default)
      ensures log == old(log) + writes
      ensures CallWrites(id, [(id, Current), (id, Processing)] + writes, outcome == Finished && ctl.hasSink)
      ensures outcome == Finished ==>
        Tagged(nodes[..], [id] + below, Visited) && |ctl.lines| > 0 && ctl.lines[|ctl.lines| - 1] == IdleLine
      ensures outcome == Finished && Tagged(start, PreOrder(id), Default) ==> [id] + below == PreOrder(id)
      decreases NodeCount - id, 2
    {
      PreOrderOfChildren(id);
      ctl.Emit(5);
      ghost var entered := nodes[..];
      outcome, below, writes := VisitChildren(id);
      CallWritesJoin(id, writes);
      WalkedThen(start, entered, nodes[..], [id], below, PreOrder(id), Forest(Children(id)), PreOrder(id));
      if outcome != Finished {
        return;
      }
      ghost var visited := nodes[..];
      outcome := Leave(id);
      AppendAssoc(old(log), writes, [(id, Visited)]);
      writes := writes + [(id, Visited)];
      RetagWalked(start, visited, [id] + below, PreOrder(id), id, below, Visited);
    }

    /**
     * The child loop of `dfs`: for each child, left to right, stop if the run is
     * no longer running, and recurse into the child when its state is `default`.
     * The subtrees of the children share no node, so a child is `default` when
     * its turn comes exactly when it was `default` before the loop.
     */
    method VisitChildren(id: int) returns (outcome: Outcome, ghost below: seq<int>, ghost writes: seq<(int, NodeState)>)
      requires nodes.Length == NodeCount && ValidId(id)
      requires ctl.hasSink && ctl.isRunning
      modifies nodes, ctl, this`log
      ensures ctl.hasSink && ctl.stops == old(ctl.stops)
      ensures outcome != Failed
      ensures NeverStops(ctl.stops) ==> outcome == Finished
      ensures outcome == Finished <==> ctl.isRunning
      ensures Walked(old(nodes[..]), nodes[..], below, Forest(Children(id)))
      ensures Tagged(old(nodes[..]), below, Default)
      ensures log == old(log) + writes && BelowWrites(id, writes)
      ensures outcome == Finished ==> Tagged(nodes[..], below, Visited)
      ensures outcome == Finished && Tagged(old(nodes[..]), Forest(Children(id)), Default) ==> below == Forest(Children(id))
      decreases NodeCount - id, 1
    {
      var kids := Children(id);
      PreOrderOfChildren(id);
      below, writes := [], [];
      outcome := Finished;
      for c := 0 to |kids|
        invariant ctl.hasSink && ctl.stops == old(ctl.stops) && ctl.isRunning
        invariant Walked(old(nodes[..]), nodes[..], below, Forest(kids[..c]))
        invariant Tagged(old(nodes[..]), below, Default)
        invariant log == old(log) + writes && BelowWrites(id, writes)
        invariant Tagged(nodes[..], below, Visited)
        invariant Tagged(old(nodes[..]), Forest(kids), Default) ==> below == Forest(kids[..c])
      {
        if !ctl.isRunning {
          break;
        }
        ghost var mid := nodes[..];
        var o, e, w := VisitChild(id, c);
        ChildStep(id, c, old(nodes[..]), mid, nodes[..], below, e, o == Finished);
        BelowWritesThen(id, c, writes, w);
        AppendAssoc(old(log), writes, w);
        below, writes := below + e, writes + w;
        if o != Finished {
          return o, below, writes;
        }
      }
      assert kids[..|kids|] == kids;
    }

    /**
     * One turn of the child loop: test the child's state and recurse into it
     * when it is `default`; otherwise nothing changes.
     */
    method VisitChild(id: int, c: int) returns (outcome: Outcome, ghost e: seq<int>, ghost w: seq<(int, NodeState)>)
      requires nodes.Length == NodeCount && ValidId(id) && 0 <= c < |Children(id)|
      requires ctl.hasSink && ctl.isRunning
      modifies nodes, ctl, this`log
      ensures ctl.hasSink && ctl.stops == old(ctl.stops)
      ensures outcome != Failed
      ensures NeverStops(ctl.stops) ==> outcome == Finished
      ensures outcome == Finished <==> ctl.isRunning
      ensures Walked(old(nodes[..]), nodes[..], e, PreOrder(Children(id)[c]))
      ensures Tagged(old(nodes[..]), e, Default)
      ensures log == old(log) + w && forall k :: 0 <= k < |w| ==> w[k].0 in PreOrder(Children(id)[c]) && w[k].1 != Default
      ensures outcome == Finished ==> Tagged(nodes[..], e, Visited)
      ensures outcome == Finished && Tagged(old(nodes[..]), PreOrder(Children(id)[c]), Default) ==> e == PreOrder(Children(id)[c])
      decreases NodeCount - id, 0
    {
      var child := Children(id)[c];
      ctl.Emit(6);
      if nodes[child].state == Default {
        ctl.Emit(7);
        outcome, e, w := Dfs(child);
      } else {
        outcome, e, w := Finished, [], [];
      }
    }

    /** The end of `dfs`: tag the node `visited`, suspend, then send the idle line. */
    method Leave(id: int) returns (outcome: Outcome)
      requires nodes.Length == NodeCount && ValidId(id)
      requires ctl.hasSink && ctl.isRunning
      modifies nodes, ctl, this`log
      ensures ctl.hasSink && ctl.stops == old(ctl.stops)
      ensures outcome == (if old(ctl.resumed) == ctl.stops then Stopped else Finished)
      ensures nodes[..] == old(nodes[..])[id := old(nodes[id]).(state := Visited)]
      ensures log == old(log) + [(id, Visited)]
      ensures outcome == Finished ==> ctl.isRunning && |ctl.lines| > 0 && ctl.lines[|ctl.lines| - 1] == IdleLine
      ensures outcome != Finished ==> !ctl.isRunning
    {
      SetState(id, Visited);
      outcome := ctl.Sleep();
      if outcome == Finished {
        ctl.Emit(IdleLine);
      }
    }
  }
}
