/**
 The label-aware packing tree that measures a group of turn samples
 (axrl/utils/megatron/prefix_tree.py:117-261).
 */
module PrefixTree {

  datatype Node = Node(tokens: seq<int>, children: seq<Node>, owners: seq<nat>)

  const EMPTY_TREE := Node([], [], [])

  function SharedLen(tokens: seq<int>, suffix: seq<int>): (k: nat)
    ensures k <= |tokens| && k <= |suffix| && tokens[..k] == suffix[..k]
    ensures k < |tokens| && k < |suffix| ==> tokens[k] != suffix[k]
  {
    if tokens == [] || suffix == [] || tokens[0] != suffix[0] then 0
    else
      var k := 1 + SharedLen(tokens[1..], suffix[1..]);
      assert tokens[..k] == [tokens[0]] + tokens[1..][..k - 1];
      assert suffix[..k] == [suffix[0]] + suffix[1..][..k - 1];
      k
  }

  /** The shared run, less its last position when both sides go on and so disagree about that position's label. */
  function LabelAwareLen(tokens: seq<int>, suffix: seq<int>): (k: nat)
    ensures k <= |tokens| && k <= |suffix| && tokens[..k] == suffix[..k]
  {
    var k := SharedLen(tokens, suffix);
    if 0 < k < |suffix| && k < |tokens| then
      assert tokens[..k - 1] == tokens[..k][..k - 1];
      assert suffix[..k - 1] == suffix[..k][..k - 1];
      k - 1
    else k
  }

  /** Both sides agree about position `p` and about its label, the token after it, unless a side ends there. */
  predicate Agree(tokens: seq<int>, suffix: seq<int>, p: nat)
    requires p < |tokens| && p < |suffix|
  {
    tokens[p] == suffix[p] && (p + 1 < |tokens| && p + 1 < |suffix| ==> tokens[p + 1] == suffix[p + 1])
  }

  /** The label-aware length is the longest run whose tokens and labels agree. */
  lemma LabelAwareLenIsLongest(tokens: seq<int>, suffix: seq<int>)
    ensures forall p :: 0 <= p < LabelAwareLen(tokens, suffix) ==> Agree(tokens, suffix, p)
    ensures var k := LabelAwareLen(tokens, suffix); k < |tokens| && k < |suffix| ==> !Agree(tokens, suffix, k)
  {
    var m := SharedLen(tokens, suffix);
    assert forall p :: 0 <= p < m ==> tokens[p] == tokens[..m][p] == suffix[..m][p] == suffix[p];
  }

  /** Whether `suffix` enters `child`. */
  predicate Enters(child: Node, suffix: seq<int>) {
    && child.tokens != [] && suffix != [] && child.tokens[0] == suffix[0]
    && LabelAwareLen(child.tokens, suffix) > 0
  }

  function Split(child: Node, k: nat): Node
    requires k <= |child.tokens|
  {
    if k < |child.tokens| then Node(child.tokens[..k], [child.(tokens := child.tokens[k..])], []) else child
  }

  /** The tree with the path added, and the number of positions that took. */
  function InsertPath(node: Node, suffix: seq<int>, path: nat): (Node, nat)
    decreases |suffix|, |node.children| + 1
  {
    if suffix == [] then (node.(owners := node.owners + [path]), 0)
    else
      var (children, added) := InsertChildren(node.children, suffix, path);
      (node.(children := children), added)
  }

  function InsertChildren(children: seq<Node>, suffix: seq<int>, path: nat): (seq<Node>, nat)
    requires suffix != []
    decreases |suffix|, |children|
  {
    if children == [] then ([Node(suffix, [], [path])], |suffix|)
    else if Enters(children[0], suffix) then
      var k := LabelAwareLen(children[0].tokens, suffix);
      var (child, added) := InsertPath(Split(children[0], k), suffix[k..], path);
      ([child] + children[1..], added)
    else
      var (rest, added) := InsertChildren(children[1..], suffix, path);
      ([children[0]] + rest, added)
  }

  // The estimate, computed without touching the tree.

  function AddedLen(node: Node, suffix: seq<int>): nat
    decreases |suffix|, |node.children| + 1
  {
    if suffix == [] then 0 else AddedLenFromChildren(node.children, suffix)
  }

  function AddedLenAfterSplit(tokens: seq<int>, children: seq<Node>, suffix: seq<int>): nat
    decreases |suffix|, |children|
  {
    if suffix == [] then 0
    else
      var k := LabelAwareLen(tokens, suffix);
      if k == 0 then |suffix|
      else if k < |tokens| then AddedLenAfterSplit(tokens[k..], children, suffix[k..])
      else if suffix[k..] == [] then 0
      else AddedLenFromChildren(children, suffix[k..])
  }

  function AddedLenFromChildren(children: seq<Node>, suffix: seq<int>): nat
    requires suffix != []
    decreases |suffix|, |children|
  {
    if children == [] then |suffix|
    else if Enters(children[0], suffix) then
      var k := LabelAwareLen(children[0].tokens, suffix);
      if k < |children[0].tokens| then AddedLenAfterSplit(children[0].tokens[k..], children[0].children, suffix[k..])
      else AddedLen(children[0], suffix[k..])
    else AddedLenFromChildren(children[1..], suffix)
  }

  lemma {:induction false} EstimateIsExact(node: Node, suffix: seq<int>, path: nat)
    ensures AddedLen(node, suffix) == InsertPath(node, suffix, path).1
    decreases |suffix|, |node.children| + 1
  {
    if suffix != [] {
      EstimateChildrenIsExact(node.children, suffix, path);
    }
  }

  lemma {:induction false} EstimateChildrenIsExact(children: seq<Node>, suffix: seq<int>, path: nat)
    requires suffix != []
    ensures AddedLenFromChildren(children, suffix) == InsertChildren(children, suffix, path).1
    decreases |suffix|, |children|
  {
    if children == [] {
    } else if Enters(children[0], suffix) {
      var k := LabelAwareLen(children[0].tokens, suffix);
      if k < |children[0].tokens| {
        EstimateSplitIsExact(children[0].tokens[..k], children[0].(tokens := children[0].tokens[k..]), suffix[k..],
            path);
      } else {
        EstimateIsExact(children[0], suffix[k..], path);
      }
    } else {
      EstimateChildrenIsExact(children[1..], suffix, path);
    }
  }

  lemma {:induction false} EstimateSplitIsExact(head: seq<int>, lower: Node, suffix: seq<int>, path: nat)
    requires lower.tokens != []
    ensures AddedLenAfterSplit(lower.tokens, lower.children, suffix) ==
            InsertPath(Node(head, [lower], []), suffix, path).1
    decreases |suffix|, |lower.children|
  {
    if suffix != [] {
      var k := LabelAwareLen(lower.tokens, suffix);
      if Enters(lower, suffix) {
        if k < |lower.tokens| {
          EstimateSplitIsExact(lower.tokens[..k], lower.(tokens := lower.tokens[k..]), suffix[k..], path);
        } else {
          EstimateIsExact(lower, suffix[k..], path);
        }
      } else {
        assert k == 0;
        assert [lower][1..] == [];
        assert InsertChildren([lower], suffix, path).1 == InsertChildren([], suffix, path).1;
      }
    }
  }

  // Packed size.

  function Size(node: Node): nat {
    |node.tokens| + SizeAll(node.children)
  }

  function SizeAll(nodes: seq<Node>): nat {
    if nodes == [] then 0 else Size(nodes[0]) + SizeAll(nodes[1..])
  }

  lemma {:induction false} SizeOne(node: Node)
    ensures SizeAll([node]) == Size(node)
  {
    assert [node][1..] == [];
  }

  lemma {:induction false} SplitKeepsSize(child: Node, k: nat)
    requires k <= |child.tokens|
    ensures Size(Split(child, k)) == Size(child)
  {
    SizeOne(child.(tokens := child.tokens[k..]));
  }

  /** Inserting grows the packed size by exactly the reported amount. */
  lemma {:induction false} InsertGrowsSize(node: Node, suffix: seq<int>, path: nat)
    ensures Size(InsertPath(node, suffix, path).0) == Size(node) + InsertPath(node, suffix, path).1
    decreases |suffix|, |node.children| + 1
  {
    if suffix != [] {
      InsertChildrenGrowsSize(node.children, suffix, path);
    }
  }

  lemma {:induction false} InsertChildrenGrowsSize(children: seq<Node>, suffix: seq<int>, path: nat)
    requires suffix != []
    ensures SizeAll(InsertChildren(children, suffix, path).0) ==
            SizeAll(children) + InsertChildren(children, suffix, path).1
    decreases |suffix|, |children|
  {
    if children == [] {
      SizeOne(Node(suffix, [], [path]));
    } else if Enters(children[0], suffix) {
      var k := LabelAwareLen(children[0].tokens, suffix);
      SplitKeepsSize(children[0], k);
      InsertGrowsSize(Split(children[0], k), suffix[k..], path);
    } else {
      InsertChildrenGrowsSize(children[1..], suffix, path);
    }
  }

  // The paths stored in a tree.

  /** Every stored path with its owner, read from the root down. */
  function Paths(node: Node, prefix: seq<int>): set<(nat, seq<int>)> {
    OwnersAt(node.owners, prefix + node.tokens) + PathsAll(node.children, prefix + node.tokens)
  }

  function OwnersAt(owners: seq<nat>, path: seq<int>): set<(nat, seq<int>)> {
    set i | i in owners :: (i, path)
  }

  function PathsAll(nodes: seq<Node>, prefix: seq<int>): set<(nat, seq<int>)> {
    if nodes == [] then {} else Paths(nodes[0], prefix) + PathsAll(nodes[1..], prefix)
  }

  lemma {:induction false} SplitKeepsPaths(child: Node, k: nat, prefix: seq<int>)
    requires k <= |child.tokens|
    ensures Paths(Split(child, k), prefix) == Paths(child, prefix)
  {
    if k < |child.tokens| {
      var lower := child.(tokens := child.tokens[k..]);
      assert [lower][1..] == [];
      assert (prefix + child.tokens[..k]) + child.tokens[k..] == prefix + child.tokens;
      assert PathsAll([lower], prefix + child.tokens[..k]) == Paths(lower, prefix + child.tokens[..k]);
    }
  }

  /** Insertion loses no path and adds exactly the new one. */
  lemma {:induction false} InsertAddsPath(node: Node, suffix: seq<int>, path: nat, prefix: seq<int>)
    ensures Paths(InsertPath(node, suffix, path).0, prefix) ==
            Paths(node, prefix) + {(path, prefix + node.tokens + suffix)}
    decreases |suffix|, |node.children| + 1
  {
    var at := prefix + node.tokens;
    if suffix == [] {
      assert at + suffix == at;
      assert OwnersAt(node.owners + [path], at) == OwnersAt(node.owners, at) + {(path, at)};
    } else {
      InsertChildrenAddPath(node.children, suffix, path, at);
    }
  }

  lemma {:induction false} InsertChildrenAddPath(children: seq<Node>, suffix: seq<int>, path: nat, prefix: seq<int>)
    requires suffix != []
    ensures PathsAll(InsertChildren(children, suffix, path).0, prefix) ==
            PathsAll(children, prefix) + {(path, prefix + suffix)}
    decreases |suffix|, |children|
  {
    if children == [] {
      var leaf := Node(suffix, [], [path]);
      assert [leaf][1..] == [];
      assert Paths(leaf, prefix) == {(path, prefix + suffix)};
      assert PathsAll([leaf], prefix) == Paths(leaf, prefix) + PathsAll([leaf][1..], prefix);
    } else if Enters(children[0], suffix) {
      var k := LabelAwareLen(children[0].tokens, suffix);
      var split := Split(children[0], k);
      SplitKeepsPaths(children[0], k, prefix);
      InsertAddsPath(split, suffix[k..], path, prefix);
      assert split.tokens == suffix[..k];
      assert prefix + split.tokens + suffix[k..] == prefix + suffix;
      var inserted := InsertPath(split, suffix[k..], path).0;
      assert ([inserted] + children[1..])[1..] == children[1..];
    } else {
      InsertChildrenAddPath(children[1..], suffix, path, prefix);
      var rest := InsertChildren(children[1..], suffix, path).0;
      assert ([children[0]] + rest)[1..] == rest;
    }
  }

  // The running tree of a group.

  datatype MergingTree = MergingTree(root: Node, packedLen: nat, pathCount: nat) {
    function AddPath(path: seq<int>): MergingTree {
      var (root', added) := InsertPath(root, path, pathCount);
      MergingTree(root', packedLen + added, pathCount + 1)
    }

    function PackedLenIfAdded(path: seq<int>): nat {
      packedLen + AddedLen(root, path)
    }
  }

  const EMPTY := MergingTree(EMPTY_TREE, 0, 0)

  function TreeOf(group: seq<seq<int>>): MergingTree {
    if group == [] then EMPTY else TreeOf(group[..|group| - 1]).AddPath(group[|group| - 1])
  }

  function PackedLen(group: seq<seq<int>>): nat { TreeOf(group).packedLen }

  lemma TreeOfSnoc(group: seq<seq<int>>, path: seq<int>)
    ensures TreeOf(group + [path]) == TreeOf(group).AddPath(path)
  {
    assert (group + [path])[..|group|] == group;
  }

  /**
   The tree of a group stores exactly its members, `packedLen` is its size, and the estimate foretells the next size.
   */
  lemma {:induction false} TreeOfFaithful(group: seq<seq<int>>)
    ensures TreeOf(group).packedLen == Size(TreeOf(group).root)
    ensures TreeOf(group).pathCount == |group| && TreeOf(group).root.tokens == []
    ensures Paths(TreeOf(group).root, []) == set i | 0 <= i < |group| :: (i, group[i])
    ensures forall path :: TreeOf(group).PackedLenIfAdded(path) == PackedLen(group + [path])
  {
    if group != [] {
      var front, last := group[..|group| - 1], group[|group| - 1];
      TreeOfFaithful(front);
      var tree := TreeOf(front);
      InsertGrowsSize(tree.root, last, tree.pathCount);
      InsertAddsPath(tree.root, last, tree.pathCount, []);
      assert [] + tree.root.tokens + last == last;
      var stored := set i | 0 <= i < |group| :: (i, group[i]);
      var before := set i | 0 <= i < |front| :: (i, front[i]);
      assert stored == before + {(|front|, last)};
    }
    forall path
      ensures TreeOf(group).PackedLenIfAdded(path) == PackedLen(group + [path])
    {
      TreeOfSnoc(group, path);
      EstimateIsExact(TreeOf(group).root, path, TreeOf(group).pathCount);
    }
  }

  // Linear prefix chains.

  /** A tree with no branching: its tokens from the root down form one run. */
  predicate Linear(node: Node) {
    |node.children| <= 1 && (|node.children| == 1 ==> node.children[0].tokens != [] && Linear(node.children[0]))
  }

  function Spine(node: Node): seq<int>
    requires Linear(node)
  {
    node.tokens + if node.children == [] then [] else Spine(node.children[0])
  }

  lemma {:induction false} PrefixIsShared(tokens: seq<int>, suffix: seq<int>)
    requires tokens <= suffix
    ensures LabelAwareLen(tokens, suffix) == |tokens|
  {
    assert forall i :: 0 <= i < |tokens| ==> tokens[i] == suffix[i];
  }

  /** Extending the only path of a linear tree keeps it linear and adds only the new tokens. */
  lemma {:induction false} ExtendLinear(node: Node, suffix: seq<int>, path: nat)
    requires Linear(node) && Spine(node) <= node.tokens + suffix
    ensures var (node', added) := InsertPath(node, suffix, path);
      Linear(node') && node'.tokens == node.tokens && Spine(node') == node.tokens + suffix
      && added == |node.tokens + suffix| - |Spine(node)|
    decreases |suffix|
  {
    if suffix != [] && node.children != [] {
      var child := node.children[0];
      assert node.children == [child];
      assert Spine(child) <= suffix by {
        assert Spine(node) == node.tokens + Spine(child);
        assert (node.tokens + suffix)[|node.tokens|..] == suffix;
        assert Spine(node)[|node.tokens|..] == Spine(child);
      }
      assert child.tokens <= suffix;
      PrefixIsShared(child.tokens, suffix);
      assert child.tokens[0] == suffix[0];
      var k := |child.tokens|;
      assert child.tokens + suffix[k..] == suffix;
      ExtendLinear(child, suffix[k..], path);
    }
  }

  /** Each element is a prefix of the next. */
  predicate PrefixChain(group: seq<seq<int>>) {
    forall i :: 0 < i < |group| ==> group[i - 1] <= group[i]
  }

  lemma {:induction false} ChainPackedLen(group: seq<seq<int>>)
    requires PrefixChain(group) && group != []
    ensures PackedLen(group) == |group[|group| - 1]|
    ensures Linear(TreeOf(group).root) && TreeOf(group).root.tokens == [] &&
            Spine(TreeOf(group).root) == group[|group| - 1]
  {
    var front, last := group[..|group| - 1], group[|group| - 1];
    if front != [] {
      ChainPackedLen(front);
      assert front[|front| - 1] <= last;
    }
    var root := TreeOf(front).root;
    assert root.tokens + last == last;
    assert TreeOf([]) == EMPTY;
    ExtendLinear(root, last, TreeOf(front).pathCount);
  }
}
