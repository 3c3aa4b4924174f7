/**
 * The breadth-first search animation: a FIFO queue walk of the fixed tree
 * from the root. The root is tagged `current`, then `processing`; each node
 * taken from the front of the queue is tagged `current`, its children that
 * are still `default` are tagged `processing` and pushed at the back, and the
 * node is tagged `visited`, with a suspension after every tag.
 */
module BreadthFirstSearch {
  import opened Steps
  import opened Trees

  /** The nodes of `kids` that are `default` in `s`, in their order: those the child loop enqueues. */
  function Enqueued(s: seq<TreeNode>, kids: seq<int>): (r: seq<int>)
    requires |s| == NodeCount && forall k :: 0 <= k < |kids| ==> ValidId(kids[k])
    ensures forall k :: k in r <==> k in kids && ValidId(k) && s[k].state == Default
    ensures |r| <= |kids|
  {
    if kids == [] then []
    else
      var last := kids[|kids| - 1];
      assert ValidId(last);
      Enqueued(s, kids[..|kids| - 1]) + (if s[last].state == Default then [last] else [])
  }

  /** `s` with every node of `ks` tagged `tag`. */
  function Mark(s: seq<TreeNode>, ks: seq<int>, tag: NodeState): (r: seq<TreeNode>)
    requires |s| == NodeCount
    ensures |r| == NodeCount
    ensures forall k :: 0 <= k < NodeCount ==> r[k] == if k in ks then s[k].(state := tag) else s[k]
  {
    seq(NodeCount, k requires 0 <= k < NodeCount => if k in ks then s[k].(state := tag) else s[k])
  }

  /**
   * The tree after a turn of the queue loop on `current` that tagged the nodes
   * `pushed` `processing` and left `current` tagged `tag`.
   */
  function Turned(s: seq<TreeNode>, current: int, pushed: seq<int>, tag: NodeState): (r: seq<TreeNode>)
    requires |s| == NodeCount && ValidId(current)
    ensures |r| == NodeCount
  {
    Mark(s, pushed, Processing)[current := s[current].(state := tag)]
  }

  /** The nodes that are `default` in `s`. */
  ghost function DefaultSet(s: seq<TreeNode>): set<int>
    requires |s| == NodeCount
  {
    set k | 0 <= k < NodeCount && s[k].state == Default
  }

  /** Every node is `default`, as `initialize` leaves the tree. */
  ghost predicate AllDefault(s: seq<TreeNode>)
    requires |s| == NodeCount
  {
    forall k :: 0 <= k < NodeCount ==> s[k].state == Default
  }

  ghost predicate Distinct(xs: seq<int>)
  {
    forall a, b :: 0 <= a < b < |xs| ==> xs[a] != xs[b]
  }

  /**
   * No write tags a node `default`, and once a node is tagged `visited` no later
   * write touches it.
   */
  ghost predicate Settled(log: seq<(int, NodeState)>)
  {
    (forall i :: 0 <= i < |log| ==> log[i].1 != Default) &&
    (forall i, j :: 0 <= i < j < |log| && log[i].1 == Visited ==> log[j].0 != log[i].0)
  }

  /** The writes in `log` that tag a node `visited` are on nodes of `order`. */
  ghost predicate VisitedIn(log: seq<(int, NodeState)>, order: seq<int>)
  {
    forall i :: 0 <= i < |log| && log[i].1 == Visited ==> log[i].0 in order
  }

  /**
   * The writes of one turn of the queue loop on `current`, starting from `s`:
   * `current` tagged `current` first and `visited` only last, and in between
   * nodes other than `current` that were `default` in `s`, tagged `processing`.
   */
  ghost predicate TurnWrites(s: seq<TreeNode>, current: int, w: seq<(int, NodeState)>)
    requires |s| == NodeCount
  {
    |w| > 0 && w[0] == (current, Current) &&
    (forall i :: 1 <= i < |w| ==>
      (w[i] == (current, Visited) && i == |w| - 1) ||
      (w[i].1 == Processing && w[i].0 != current && ValidId(w[i].0) && s[w[i].0].state == Default))
  }

  /** The nodes `pushed` by a turn on `current`: distinct children of it that were `default` in `s`. */
  ghost predicate Pushable(s: seq<TreeNode>, current: int, pushed: seq<int>)
    requires |s| == NodeCount
  {
    Distinct(pushed) &&
    forall x :: x in pushed ==> x in Children(current) && ValidId(x) && x != current && s[x].state == Default
  }

  /** The writes of the child loop: one `processing` tag per pushed node, in push order. */
  ghost predicate PushWrites(pushed: seq<int>, w: seq<(int, NodeState)>)
  {
    |w| == |pushed| && forall i :: 0 <= i < |w| ==> w[i] == (pushed[i], Processing)
  }

  /** The first writes of a run: the root tagged `current`, `processing`, then `current` again when its turn comes. */
  const RootWrites: seq<(int, NodeState)> := [(Root, Current), (Root, Processing), (Root, Current)]

  /**
   * On a tree that started all `default`, the nodes pushed so far are 0, 1, 2, ...
   * and each turn on node m < 3 has pushed its two children 2m + 1 and 2m + 2.
   */
  ghost predicate Level(order: seq<int>, pushes: seq<int>)
  {
    (forall k :: 0 <= k < |pushes| ==> pushes[k] == k) &&
    |pushes| == if 2 * |order| + 1 < NodeCount then 2 * |order| + 1 else NodeCount
  }

  /**
   * The invariant of the queue loop. `order` lists the nodes taken from the queue,
   * `pushes` every node ever put on it; the nodes put on it are the only ones
   * changed since `start`, those taken off are `visited`, those waiting are
   * `processing`, and the log is settled with the root's writes first.
   */
  ghost predicate Progress(start: seq<TreeNode>, s: seq<TreeNode>, order: seq<int>, queue: seq<int>,
                           pushes: seq<int>, log: seq<(int, NodeState)>)
  {
    |start| == NodeCount && |s| == NodeCount &&
    order + queue == pushes && |pushes| > 0 && pushes[0] == Root &&
    Walked(start, s, pushes, PreOrder(Root)) &&
    Tagged(s, order, Visited) && Tagged(s, queue, Processing) &&
    Settled(log) && VisitedIn(log, order) &&
    |log| >= 2 && log[..2] == RootWrites[..2] &&
    (order == [] ==> |log| == 2) && (order != [] ==> |log| >= 3 && log[..3] == RootWrites) &&
    (AllDefault(start) ==> Level(order, pushes))
  }

  /** `Enqueued` reads only the states of the children it tests. */
  lemma EnqueuedFrame(s: seq<TreeNode>, t: seq<TreeNode>, kids: seq<int>)
    requires |s| == NodeCount && |t| == NodeCount
    requires forall k :: 0 <= k < |kids| ==> ValidId(kids[k]) && s[kids[k]].state == t[kids[k]].state
    ensures Enqueued(s, kids) == Enqueued(t, kids)
    decreases |kids|
  {
    if kids != [] {
      EnqueuedFrame(s, t, kids[..|kids| - 1]);
    }
  }

  /** One more child of the loop: it is pushed exactly when it is `default`. */
  lemma EnqueuedNext(s: seq<TreeNode>, kids: seq<int>, c: int)
    requires |s| == NodeCount && forall k :: 0 <= k < |kids| ==> ValidId(kids[k])
    requires 0 <= c < |kids|
    ensures Enqueued(s, kids[..c + 1]) ==
      Enqueued(s, kids[..c]) + (if s[kids[c]].state == Default then [kids[c]] else [])
  {
    assert kids[..c + 1][..c] == kids[..c];
  }

  /**
   * The turn tags `current` `current` before the child loop tests the children;
   * since no child is `current`, what the loop pushes and the tree it leaves are
   * as if the loop had run on the tree before the turn.
   */
  lemma TurnFromBefore(s: seq<TreeNode>, current: int, s1: seq<TreeNode>, pushed: seq<int>)
    requires |s| == NodeCount && ValidId(current)
    requires s1 == s[current := s[current].(state := Current)]
    requires Pushable(s1, current, pushed)
    ensures Pushable(s, current, pushed)
    ensures Mark(s1, pushed, Processing) == Turned(s, current, pushed, Current)
    ensures Turned(s, current, pushed, Current)[current := s[current].(state := Visited)] == Turned(s, current, pushed, Visited)
    ensures Enqueued(s1, Children(current)) == Enqueued(s, Children(current))
  {
    EnqueuedFrame(s, s1, Children(current));
  }

  /** The writes of a turn: `current` first, then the pushes, then `visited` on `current` when the turn ends. */
  lemma TurnWritesOf(s: seq<TreeNode>, current: int, pushed: seq<int>, w: seq<(int, NodeState)>)
    requires |s| == NodeCount && ValidId(current)
    requires Pushable(s, current, pushed) && PushWrites(pushed, w)
    ensures TurnWrites(s, current, [(current, Current)] + w)
    ensures TurnWrites(s, current, [(current, Current)] + w + [(current, Visited)])
  {
    var a := [(current, Current)] + w;
    assert forall i :: 1 <= i < |a| ==> a[i] == w[i - 1] && w[i - 1].0 in pushed;
  }

  /** The node at the front of the queue is a valid node, `processing`, and neither taken off before nor waiting again. */
  lemma Front(start: seq<TreeNode>, s: seq<TreeNode>, order: seq<int>, queue: seq<int>, pushes: seq<int>, log: seq<(int, NodeState)>)
    requires Progress(start, s, order, queue, pushes, log) && |queue| > 0
    ensures ValidId(queue[0]) && s[queue[0]].state == Processing
    ensures queue[0] !in order && queue[0] !in queue[1..]
    ensures (order + [queue[0]]) + queue[1..] == pushes
  {
    assert pushes[|order|] == queue[0];
    forall k | 0 <= k < |order|
      ensures order[k] != queue[0]
    {
      assert pushes[k] == order[k];
    }
    forall k | 0 <= k < |queue| - 1
      ensures queue[1..][k] != queue[0]
    {
      assert pushes[|order| + 1 + k] == queue[1..][k];
    }
    assert queue == [queue[0]] + queue[1..];
  }

  /** A turn extends the walk by the pushed nodes. */
  lemma WalkStep(start: seq<TreeNode>, s: seq<TreeNode>, pushes: seq<int>, current: int, pushed: seq<int>, tag: NodeState)
    requires Walked(start, s, pushes, PreOrder(Root)) && ValidId(current) && current in pushes
    requires Pushable(s, current, pushed) && tag != Default
    ensures Walked(start, Turned(s, current, pushed, tag), pushes + pushed, PreOrder(Root))
  {
    var e := pushes + pushed;
    forall x, y | 0 <= x < y < |e|
      ensures e[x] != e[y]
    {
      if x < |pushes| <= y {
        assert e[y] in pushed;
      }
    }
    forall k | 0 <= k < |pushed|
      ensures pushed[k] in PreOrder(Root)
    {
      InTree(pushed[k]);
    }
  }

  /** Every node is in the tree at the root. */
  lemma InTree(k: int)
    requires ValidId(k)
    ensures k in PreOrder(Root)
  {
    assert PreOrder(Root)[1] == 1 && PreOrder(Root)[4] == 2 && PreOrder(Root)[2] == 3;
    assert PreOrder(Root)[3] == 4 && PreOrder(Root)[5] == 5 && PreOrder(Root)[6] == 6;
  }

  /** A turn that writes as a turn does keeps the log settled. */
  lemma SettledThen(log: seq<(int, NodeState)>, w: seq<(int, NodeState)>, s: seq<TreeNode>, order: seq<int>, current: int)
    requires |s| == NodeCount && Settled(log) && VisitedIn(log, order)
    requires Tagged(s, order, Visited) && current !in order
    requires TurnWrites(s, current, w)
    ensures Settled(log + w) && VisitedIn(log + w, order + [current])
  {
    var l := log + w;
    forall i, j | 0 <= i < j < |l| && l[i].1 == Visited
      ensures l[j].0 != l[i].0
    {
      if i < |log| && j >= |log| {
        assert l[i].0 in order;
        assert w[j - |log|] == l[j];
      }
    }
  }

  /** After a whole turn the nodes taken off are `visited` and the waiting ones `processing`. */
  lemma TagStep(s: seq<TreeNode>, order: seq<int>, queue: seq<int>, current: int, pushed: seq<int>)
    requires |s| == NodeCount && ValidId(current) && |queue| > 0 && queue[0] == current
    requires Tagged(s, order, Visited) && Tagged(s, queue, Processing)
    requires current !in order && current !in queue[1..]
    requires Pushable(s, current, pushed)
    ensures Tagged(Turned(s, current, pushed, Visited), order + [current], Visited)
    ensures Tagged(Turned(s, current, pushed, Visited), queue[1..] + pushed, Processing)
  {
    var t := Turned(s, current, pushed, Visited);
    forall k | k in order && ValidId(k)
      ensures t[k].state == Visited
    {
      assert k !in pushed;
    }
    forall k | k in queue[1..] && ValidId(k)
      ensures t[k].state == Processing
    {
      assert k in queue;
      assert k !in pushed;
    }
  }

  /** The children as a formula: node m < 3 has children 2m + 1 and 2m + 2. */
  lemma ChildrenOf(m: int)
    requires ValidId(m)
    ensures Children(m) == if m < 3 then [2 * m + 1, 2 * m + 2] else []
  {
  }

  /**
   * On a tree that started all `default`, the turn on node m (the m-th node taken
   * off) pushes the two children of m, which come right after the nodes pushed
   * before: the nodes are pushed, and so taken off, in the order 0, 1, 2, ...
   */
  lemma LevelStep(s: seq<TreeNode>, order: seq<int>, queue: seq<int>, pushes: seq<int>)
    requires |s| == NodeCount && forall x :: 0 <= x < NodeCount && x !in pushes ==> s[x].state == Default
    requires Level(order, pushes) && order + queue == pushes && |queue| > 0
    ensures ValidId(queue[0])
    ensures Level(order + [queue[0]], pushes + Enqueued(s, Children(queue[0])))
  {
    var m := |order|;
    assert pushes[m] == queue[0] == m;
    ChildrenOf(m);
    if m < 3 {
      Unpushed(pushes, 2 * m + 1);
      Unpushed(pushes, 2 * m + 2);
      EnqueuedBoth(s, 2 * m + 1, 2 * m + 2);
    }
    assert Enqueued(s, Children(m)) == if m < 3 then [2 * m + 1, 2 * m + 2] else [];
    LevelGrow(order, pushes, m);
  }

  /** On a tree that started all `default`, a node not yet pushed is still `default`. */
  lemma Untouched(start: seq<TreeNode>, s: seq<TreeNode>, pushes: seq<int>)
    requires |start| == NodeCount && AllDefault(start) && Walked(start, s, pushes, PreOrder(Root))
    ensures forall x :: 0 <= x < NodeCount && x !in pushes ==> s[x].state == Default
  {
  }

  /** The m-th turn pushes 2m + 1 and 2m + 2 while m < 3, and nothing after. */
  lemma LevelGrow(order: seq<int>, pushes: seq<int>, x: int)
    requires Level(order, pushes) && |order| < |pushes|
    ensures Level(order + [x], pushes + if |order| < 3 then [2 * |order| + 1, 2 * |order| + 2] else [])
  {
    var m := |order|;
    if m < 3 {
      var n := pushes + [2 * m + 1, 2 * m + 2];
      forall k | 0 <= k < |n|
        ensures n[k] == k
      {
        if k < |pushes| {
          assert n[k] == pushes[k];
        }
      }
    } else {
      assert pushes + [] == pushes;
    }
  }

  /** Nodes are pushed in the order 0, 1, 2, ...: a node past the count pushed is not pushed yet. */
  lemma Unpushed(pushes: seq<int>, x: int)
    requires (forall k :: 0 <= k < |pushes| ==> pushes[k] == k) && |pushes| <= x
    ensures x !in pushes
  {
    assert x !in pushes;
  }

  /** Two `default` children are both pushed, in their order. */
  lemma EnqueuedBoth(s: seq<TreeNode>, a: int, b: int)
    requires |s| == NodeCount && ValidId(a) && ValidId(b)
    requires s[a].state == Default && s[b].state == Default
    ensures Enqueued(s, [a, b]) == [a, b]
  {
    assert [a, b][..1] == [a] && [a][..0] == [];
    assert Enqueued(s, [a]) == [a];
  }

  /** When the queue runs empty on a tree that started all `default`, all seven nodes were taken off, in order. */
  lemma LevelDone(order: seq<int>)
    requires Level(order, order)
    ensures order == [0, 1, 2, 3, 4, 5, 6]
  {
  }

  /**
   * A whole turn on a `processing` node tags no node `default` and takes the
   * pushed nodes out of the `default` ones: the queue loop terminates.
   */
  lemma DefaultShrink(s: seq<TreeNode>, current: int, pushed: seq<int>)
    requires |s| == NodeCount && ValidId(current) && s[current].state != Default
    requires Pushable(s, current, pushed)
    ensures DefaultSet(Turned(s, current, pushed, Visited)) <= DefaultSet(s)
    ensures pushed == [] ==> DefaultSet(Turned(s, current, pushed, Visited)) == DefaultSet(s)
    ensures pushed != [] ==> pushed[0] in DefaultSet(s) - DefaultSet(Turned(s, current, pushed, Visited))
  {
    if pushed != [] {
      assert pushed[0] in pushed;
    }
  }

  /** The children of a node are distinct: the child the loop reaches is not among those before it. */
  lemma NextChildIsNew(current: int, c: int)
    requires ValidId(current) && 0 <= c < |Children(current)|
    ensures Children(current)[c] !in Children(current)[..c]
  {
    var kids := Children(current);
    if c == 0 {
      assert kids[..c] == [];
    } else {
      assert kids[..c] == [kids[0]];
    }
  }

  /** Marking one more node. */
  lemma MarkNext(s: seq<TreeNode>, ks: seq<int>, x: int, t: seq<TreeNode>)
    requires |s| == NodeCount && ValidId(x) && x !in ks && t == Mark(s, ks, Processing)
    ensures Mark(s, ks + [x], Processing) == t[x := t[x].(state := Processing)]
  {
    var m := Mark(s, ks + [x], Processing);
    forall k | 0 <= k < NodeCount
      ensures m[k] == t[x := t[x].(state := Processing)][k]
    {
      assert k in ks + [x] <==> k in ks || k == x;
    }
  }

  /** One step of the child loop keeps its invariant: the next child is pushed exactly when it is `default`. */
  lemma PushStep(s: seq<TreeNode>, current: int, c: int, pushed: seq<int>, w: seq<(int, NodeState)>, t: seq<TreeNode>)
    requires |s| == NodeCount && ValidId(current) && 0 <= c < |Children(current)|
    requires Pushable(s, current, pushed) && pushed == Enqueued(s, Children(current)[..c])
    requires t == Mark(s, pushed, Processing) && PushWrites(pushed, w)
    ensures ValidId(Children(current)[c]) && Children(current)[c] !in pushed
    ensures t[Children(current)[c]] == s[Children(current)[c]]
    ensures var x := Children(current)[c];
      if t[x].state == Default then
        Pushable(s, current, pushed + [x]) && pushed + [x] == Enqueued(s, Children(current)[..c + 1]) &&
        Mark(s, pushed + [x], Processing) == t[x := t[x].(state := Processing)] &&
        PushWrites(pushed + [x], w + [(x, Processing)])
      else
        pushed == Enqueued(s, Children(current)[..c + 1])
  {
    var x := Children(current)[c];
    EnqueuedNext(s, Children(current), c);
    NextChildIsNew(current, c);
    MarkNext(s, pushed, x, t);
    var p := pushed + [x];
    forall a, b | 0 <= a < b < |p|
      ensures p[a] != p[b]
    {
      if b == |pushed| {
        assert p[a] in pushed;
      }
    }
  }

  /** After the root's two tags the queue loop's invariant holds, with the root alone on the queue. */
  lemma Started(start: seq<TreeNode>, s: seq<TreeNode>)
    requires Walked(start, s, [Root], PreOrder(Root)) && s[Root].state == Processing
    ensures Settled(RootWrites[..1]) && Settled(RootWrites[..2])
    ensures Progress(start, s, [], [Root], [Root], RootWrites[..2])
  {
  }

  /**
   * When the queue runs empty every node pushed was taken off and is `visited`;
   * on a tree that started all `default` that is all seven, in the order 0 to 6.
   */
  lemma Drained(start: seq<TreeNode>, s: seq<TreeNode>, order: seq<int>, pushes: seq<int>, log: seq<(int, NodeState)>)
    requires Progress(start, s, order, [], pushes, log)
    ensures order == pushes && |log| >= 3 && Tagged(s, order, Visited)
    ensures AllDefault(start) ==> order == [0, 1, 2, 3, 4, 5, 6] && forall k :: 0 <= k < NodeCount ==> s[k].state == Visited
  {
    assert order == pushes;
    if AllDefault(start) {
      LevelDone(order);
      forall k | 0 <= k < NodeCount
        ensures s[k].state == Visited
      {
        assert order[k] == k;
      }
    }
  }

  /** One turn of the queue loop keeps its invariant. */
  lemma TurnStep(start: seq<TreeNode>, s: seq<TreeNode>, order: seq<int>, queue: seq<int>, pushes: seq<int>,
                 log: seq<(int, NodeState)>, pushed: seq<int>, w: seq<(int, NodeState)>, tag: NodeState)
    requires Progress(start, s, order, queue, pushes, log) && |queue| > 0
    requires Pushable(s, queue[0], pushed) && TurnWrites(s, queue[0], w) && tag != Default
    ensures ValidId(queue[0])
    ensures Walked(start, Turned(s, queue[0], pushed, tag), pushes + pushed, PreOrder(Root))
    ensures Settled(log + w) && |log + w| >= 3 && (log + w)[..3] == RootWrites
    ensures tag == Visited && pushed == Enqueued(s, Children(queue[0])) ==>
      Progress(start, Turned(s, queue[0], pushed, tag), order + [queue[0]], queue[1..] + pushed, pushes + pushed, log + w)
  {
    var current := queue[0];
    Front(start, s, order, queue, pushes, log);
    WalkStep(start, s, pushes, current, pushed, tag);
    SettledThen(log, w, s, order, current);
    assert (log + w)[..2] == log[..2];
    if order == [] {
      assert (log + w)[..3] == log[..2] + [w[0]];
    } else {
      assert (log + w)[..3] == log[..3];
    }
    if tag == Visited && pushed == Enqueued(s, Children(current)) {
      TagStep(s, order, queue, current, pushed);
      AppendAssoc(order + [current], queue[1..], pushed);
      if AllDefault(start) {
        Untouched(start, s, pushes);
        LevelStep(s, order, queue, pushes);
      }
    }
  }

  /** The module state of the breadth-first search file: the tree, the flags and the sink. */
  class BreadthFirstSearchAnimation {
    const nodes: array<TreeNode>
    const ctl: Runner
    ghost var log: seq<(int, NodeState)>   // every state write of the current run, in order

    /** The state of the module when it is loaded: seven node slots and clear flags. */
    constructor ()
      ensures fresh(ctl) && fresh(nodes) && nodes.Length == NodeCount
      ensures !ctl.isRunning && !ctl.hasSink && !ctl.timerSet && ctl.lines == []
    {
      nodes := new TreeNode[NodeCount](k => TreeNode(k, k, false, Default));
      ctl := new Runner();
      log := [];
    }

    /**
     * `initialize`: set the running flag, register the sink, build the fixed tree
     * and reset every node of it to `default` and unvisited.
     */
    method Initialize(sink: bool)
      requires nodes.Length == NodeCount
      modifies nodes, ctl
      ensures nodes[..] == CreateFixedTree() && AllDefault(nodes[..])
      ensures ctl.isRunning && ctl.hasSink == sink
      ensures ctl.timerSet == old(ctl.timerSet) && ctl.lines == old(ctl.lines)
    {
      ctl.Attach(sink, true);
      Build();
      ghost var tree := nodes[..];
      ResetStates(nodes, Root);
      assert forall k :: 0 <= k < NodeCount ==> nodes[k] == tree[k];
    }

    /** `createFixedTree()`: fill the slots with the seven fresh nodes. */
    method Build()
      requires nodes.Length == NodeCount
      modifies nodes
      ensures nodes[..] == CreateFixedTree()
    {
      var tree := CreateFixedTree();
      for k := 0 to NodeCount
        invariant forall q :: 0 <= q < k ==> nodes[q] == tree[q]
      {
        nodes[k] := tree[k];
      }
    }

    /**
     * `animate`: set the running flag and walk the tree from the root. On the
     * fixed tree just initialized, a run that is never interrupted takes the
     * nodes off the queue in the order 0, 1, 2, 3, 4, 5, 6 and leaves every node
     * `visited`.
     */
    method Animate(stops: StopOracle) returns (outcome: Outcome, ghost order: seq<int>, ghost pushes: seq<int>)
      requires nodes.Length == NodeCount
      modifies nodes, ctl, this`log
      ensures ctl.hasSink == old(ctl.hasSink) && ctl.stops == stops
      ensures outcome != Failed
      ensures NeverStops(stops) ==> outcome == Finished
      ensures !ctl.hasSink ==> pushes == [] && nodes[..] == old(nodes[..]) && log == []
      ensures ctl.hasSink && stops == 0 ==>
        outcome == Stopped && nodes[..] == old(nodes[..])[Root := old(nodes[Root]).(state := Current)]
      ensures Walked(old(nodes[..]), nodes[..], pushes, PreOrder(Root)) && Settled(log)
      ensures |log| >= 3 ==> log[..3] == RootWrites
      ensures outcome == Finished && ctl.hasSink ==>
        |log| >= 3 && order == pushes && Tagged(nodes[..], order, Visited) &&
        |ctl.lines| > 0 && ctl.lines[|ctl.lines| - 1] == IdleLine
      ensures outcome == Finished && ctl.hasSink && AllDefault(old(nodes[..])) ==>
        order == [0, 1, 2, 3, 4, 5, 6] && forall k :: 0 <= k < NodeCount ==> nodes[k].state == Visited
    {
      log := [];
      ctl.Start(stops);
      outcome, order, pushes := Bfs();
    }

    /** `cleanup`: stop the run, cancel the pending timer, send the idle line. */
    method Cleanup()
      modifies ctl
      ensures !ctl.isRunning && !ctl.timerSet && ctl.hasSink == old(ctl.hasSink)
      ensures ctl.lines == old(ctl.lines) + (if ctl.hasSink then [IdleLine] else [])
    {
      ctl.Cleanup();
    }

    /** Tag one node. */
    method SetState(id: int, state: NodeState)
      requires nodes.Length == NodeCount && ValidId(id)
      modifies nodes, this`log
      ensures nodes[..] == old(nodes[..])[id := old(nodes[id]).(state := state)]
      ensures log == old(log) + [(id, state)]
    {
      nodes[id] := nodes[id].(state := state);
      log := log + [(id, state)];
    }

    /**
     * `bfs(root)`: with no sink registered, return at once. Otherwise put the
     * root on the queue, tagging it `current` then `processing`, and take nodes
     * off the front until the queue is empty, then send the idle line. Every
     * node it tags was put on the queue, no node is tagged after it is
     * `visited`, and a run that returns has taken off every node it pushed; on a
     * tree that started all `default` that is all seven, in level order.
     */
    method Bfs() returns (outcome: Outcome, ghost order: seq<int>, ghost pushes: seq<int>)
      requires nodes.Length == NodeCount && ctl.isRunning && log == []
      modifies nodes, ctl, this`log
      ensures ctl.hasSink == old(ctl.hasSink) && ctl.stops == old(ctl.stops)
      ensures outcome != Failed
      ensures NeverStops(ctl.stops) ==> outcome == Finished
      ensures !ctl.hasSink ==> pushes == [] && nodes[..] == old(nodes[..]) && log == []
      ensures ctl.hasSink && old(ctl.resumed) == ctl.stops ==>
        outcome == Stopped && nodes[..] == old(nodes[..])[Root := old(nodes[Root]).(state := Current)]
      ensures Walked(old(nodes[..]), nodes[..], pushes, PreOrder(Root)) && Settled(log)
      ensures |log| >= 3 ==> log[..3] == RootWrites
      ensures outcome == Finished && ctl.hasSink ==>
        |log| >= 3 && order == pushes && Tagged(nodes[..], order, Visited) &&
        |ctl.lines| > 0 && ctl.lines[|ctl.lines| - 1] == IdleLine
      ensures outcome == Finished && ctl.hasSink && AllDefault(old(nodes[..])) ==>
        order == [0, 1, 2, 3, 4, 5, 6] && forall k :: 0 <= k < NodeCount ==> nodes[k].state == Visited
    {
      order, pushes := [], [];
      if !ctl.hasSink {
        return Finished, order, pushes;
      }
      ghost var start := nodes[..];
      ctl.Emit(2);
      var queue := [Root];
      pushes := [Root];
      outcome := Begin();
      if outcome != Finished {
        return;
      }
      assert old(ctl.resumed) != ctl.stops;
      ctl.Emit(5);
      outcome, order, pushes := Drain(start, queue, order, pushes);
      if outcome != Finished {
        return;
      }
      ctl.Emit(IdleLine);
      Drained(start, nodes[..], order, pushes, log);
    }

    /**
     * The queue loop of `bfs` (lines 122 to 143): while the queue is not empty and
     * the run goes on, take the front node off and give it its turn. The loop ends
     * because each turn either pushes a node that was `default`, and no turn tags a
     * node `default`, or leaves the queue shorter.
     */
    method Drain(ghost start: seq<TreeNode>, queue: seq<int>, ghost order: seq<int>, ghost pushes: seq<int>)
      returns (outcome: Outcome, ghost order': seq<int>, ghost pushes': seq<int>)
      requires nodes.Length == NodeCount && ctl.hasSink && ctl.isRunning
      requires Progress(start, nodes[..], order, queue, pushes, log)
      modifies nodes, ctl, this`log
      ensures ctl.hasSink && ctl.stops == old(ctl.stops)
      ensures outcome != Failed
      ensures NeverStops(ctl.stops) ==> outcome == Finished
      ensures outcome == Finished <==> ctl.isRunning
      ensures Walked(start, nodes[..], pushes', PreOrder(Root)) && Settled(log)
      ensures |log| >= 3 ==> log[..3] == RootWrites
      ensures outcome == Finished ==> Progress(start, nodes[..], order', [], pushes', log)
    {
      var queue := queue;
      order', pushes' := order, pushes;
      outcome := Finished;
      while |queue| > 0 && ctl.isRunning
        invariant ctl.hasSink && ctl.isRunning && ctl.stops == old(ctl.stops) && outcome == Finished
        invariant Progress(start, nodes[..], order', queue, pushes', log)
        decreases DefaultSet(nodes[..]), |queue|
      {
        ctl.Emit(6);
        Front(start, nodes[..], order', queue, pushes', log);
        var current := queue[0];
        ghost var before, s, l := queue, nodes[..], log;
        queue := queue[1..];
        ghost var pushed, w;
        outcome, queue, pushed, w := Visit(current, queue);
        TurnStep(start, s, order', before, pushes', l, pushed, w, nodes[current].state);
        if outcome != Finished {
          pushes' := pushes' + pushed;
          return;
        }
        DefaultShrink(s, current, pushed);
        order', pushes' := order' + [current], pushes' + pushed;
      }
    }

    /** Lines 110 to 119 of `bfs`: the root tagged `current`, then `processing`, each followed by a suspension. */
    method Begin() returns (outcome: Outcome)
      requires nodes.Length == NodeCount && ctl.hasSink && ctl.isRunning && log == []
      modifies nodes, ctl, this`log
      ensures ctl.hasSink && ctl.stops == old(ctl.stops)
      ensures outcome != Failed
      ensures NeverStops(ctl.stops) ==> outcome == Finished
      ensures outcome == Finished <==> ctl.isRunning
      ensures Walked(old(nodes[..]), nodes[..], [Root], PreOrder(Root))
      ensures old(ctl.resumed) == ctl.stops ==>
        outcome == Stopped && nodes[..] == old(nodes[..])[Root := old(nodes[Root]).(state := Current)]
      ensures (log == RootWrites[..1] || log == RootWrites[..2]) && Settled(log)
      ensures outcome == Finished ==> Progress(old(nodes[..]), nodes[..], [], [Root], [Root], log)
    {
      SetState(Root, Current);
      outcome := ctl.Sleep();
      if outcome != Finished {
        return;
      }
      ctl.Emit(3);
      SetState(Root, Processing);
      Started(old(nodes[..]), nodes[..]);
      outcome := ctl.Sleep();
    }

    /**
     * One turn of the queue loop (lines 123 to 142) on the node taken off the
     * front: tag it `current`, push its `default` children, tag it `visited`,
     * with a suspension after each tag.
     */
    method Visit(current: int, queue: seq<int>) returns (outcome: Outcome, queue': seq<int>, ghost pushed: seq<int>, ghost w: seq<(int, NodeState)>)
      requires nodes.Length == NodeCount && ValidId(current)
      requires ctl.hasSink && ctl.isRunning
      modifies nodes, ctl, this`log
      ensures ctl.hasSink && ctl.stops == old(ctl.stops)
      ensures outcome != Failed
      ensures NeverStops(ctl.stops) ==> outcome == Finished
      ensures outcome == Finished <==> ctl.isRunning
      ensures queue' == queue + pushed && Pushable(old(nodes[..]), current, pushed)
      ensures log == old(log) + w && TurnWrites(old(nodes[..]), current, w)
      ensures nodes[current].state != Default && nodes[..] == Turned(old(nodes[..]), current, pushed, nodes[current].state)
      ensures outcome == Finished ==>
        nodes[current].state == Visited && pushed == Enqueued(old(nodes[..]), Children(current))
    {
      ghost var s := nodes[..];
      SetState(current, Current);
      ghost var s1 := nodes[..];
      queue', pushed, w := queue, [], [(current, Current)];
      TurnWritesOf(s, current, [], []);
      outcome := ctl.Sleep();
      if outcome != Finished {
        return;
      }
      ctl.Emit(9);
      ghost var w2;
      outcome, queue', pushed, w2 := EnqueueChildren(current, queue);
      TurnFromBefore(s, current, s1, pushed);
      TurnWritesOf(s, current, pushed, w2);
      AppendAssoc(old(log), [(current, Current)], w2);
      w := w + w2;
      if outcome != Finished {
        return;
      }
      SetState(current, Visited);
      AppendAssoc(old(log), w, [(current, Visited)]);
      w := w + [(current, Visited)];
      outcome := ctl.Sleep();
    }

    /**
     * The child loop of one turn (lines 130 to 138): each child that is still
     * `default` is tagged `processing` and pushed at the back of the queue, with
     * a suspension after each push.
     */
    method EnqueueChildren(current: int, queue: seq<int>) returns (outcome: Outcome, queue': seq<int>, ghost pushed: seq<int>, ghost w: seq<(int, NodeState)>)
      requires nodes.Length == NodeCount && ValidId(current)
      requires ctl.hasSink && ctl.isRunning
      modifies nodes, ctl, this`log
      ensures ctl.hasSink && ctl.stops == old(ctl.stops)
      ensures outcome != Failed
      ensures NeverStops(ctl.stops) ==> outcome == Finished
      ensures outcome == Finished <==> ctl.isRunning
      ensures queue' == queue + pushed && Pushable(old(nodes[..]), current, pushed)
      ensures nodes[..] == Mark(old(nodes[..]), pushed, Processing)
      ensures log == old(log) + w && PushWrites(pushed, w)
      ensures outcome == Finished ==> pushed == Enqueued(old(nodes[..]), Children(current))
    {
      var kids := Children(current);
      ghost var s := nodes[..];
      queue', pushed, w := queue, [], [];
      outcome := Finished;
      for c := 0 to |kids|
        invariant ctl.hasSink && ctl.stops == old(ctl.stops) && ctl.isRunning && outcome == Finished
        invariant queue' == queue + pushed && Pushable(s, current, pushed)
        invariant pushed == Enqueued(s, kids[..c])
        invariant nodes[..] == Mark(s, pushed, Processing)
        invariant log == old(log) + w && PushWrites(pushed, w)
      {
        var child := kids[c];
        PushStep(s, current, c, pushed, w, nodes[..]);
        if nodes[child].state == Default {
          outcome := Enqueue(child);
          AppendAssoc(old(log), w, [(child, Processing)]);
          AppendAssoc(queue, pushed, [child]);
          pushed, w := pushed + [child], w + [(child, Processing)];
          queue' := queue' + [child];
          if outcome != Finished {
            return;
          }
        }
      }
      assert kids[..|kids|] == kids;
    }

    /** Lines 132 to 136: announce the push, tag the child `processing`, suspend. */
    method Enqueue(child: int) returns (outcome: Outcome)
      requires nodes.Length == NodeCount && ValidId(child)
      requires ctl.hasSink && ctl.isRunning
      modifies nodes, ctl, this`log
      ensures ctl.hasSink && ctl.stops == old(ctl.stops)
      ensures outcome != Failed
      ensures NeverStops(ctl.stops) ==> outcome == Finished
      ensures outcome == Finished <==> ctl.isRunning
      ensures nodes[..] == old(nodes[..])[child := old(nodes[child]).(state := Processing)]
      ensures log == old(log) + [(child, Processing)]
    {
      ctl.Emit(11);
      SetState(child, Processing);
      outcome := ctl.Sleep();
    }
  }
}
