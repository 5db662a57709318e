/**
 * The block tree the backend ingests and returns: each node carries the key
 * value of its level ("name"), its values per declared group, and its children
 * ("childrenInfoList").
 */
module Tree {
  import opened Schema

  datatype Node<V> = Node(name: string, values: map<Group, seq<V>>, children: seq<Node<V>>)

  /** A node's own values are laid out as its level declares them. */
  predicate LineShaped<V>(b: BlockLevel, n: Node<V>)
  {
    ValuesFit(b, n.values)
  }

  /** One list of values per declared group, as long as the group's columns. */
  predicate ValuesFit<V>(b: BlockLevel, values: map<Group, seq<V>>)
  {
    values.Keys == b.groups.Keys &&
    forall g | g in b.groups :: |values[g]| == |b.groups[g]|
  }

  /**
   * A node of a full-depth tree at `level`: every node is laid out as its
   * level declares, sample-level nodes are leaves and every other node has
   * at least one child.
   */
  predicate Shaped<V>(bs: seq<BlockLevel>, level: nat, n: Node<V>)
    decreases n
  {
    level < |bs| &&
    LineShaped(bs[level], n) &&
    (level == |bs| - 1 <==> n.children == []) &&
    forall k | 0 <= k < |n.children| :: Shaped(bs, level + 1, n.children[k])
  }

  predicate ShapedForest<V>(bs: seq<BlockLevel>, level: nat, ns: seq<Node<V>>)
  {
    forall k | 0 <= k < |ns| :: Shaped(bs, level, ns[k])
  }

  /** No two nodes of the list share a name. */
  predicate DistinctNames<V>(ns: seq<Node<V>>)
  {
    forall i, j | 0 <= i < j < |ns| :: ns[i].name != ns[j].name
  }

  /** Below this node, siblings have distinct names at every level. */
  predicate SiblingsDistinct<V>(n: Node<V>)
    decreases n
  {
    DistinctNames(n.children) && forall k | 0 <= k < |n.children| :: SiblingsDistinct(n.children[k])
  }

  /** Some chain of nodes, starting in `ns`, is named p[0], p[1], ... */
  predicate HasPath<V>(ns: seq<Node<V>>, p: seq<string>)
    decreases |p|
  {
    p == [] || exists i | 0 <= i < |ns| :: ns[i].name == p[0] && HasPath(ns[i].children, p[1..])
  }

  /** The number of leaves below (and including) a node. */
  function Leaves<V>(n: Node<V>): nat
    decreases n
  {
    if n.children == [] then 1 else LeavesOf(n.children)
  }

  function LeavesOf<V>(ns: seq<Node<V>>): nat
    decreases ns
  {
    if ns == [] then 0 else Leaves(ns[0]) + LeavesOf(ns[1..])
  }

  /** Replacing a child by a shaped node of the same name keeps the parent shaped with distinct siblings. */
  lemma {:induction false} ReplaceChild<V>(bs: seq<BlockLevel>, level: nat, n: Node<V>, j: nat, c: Node<V>)
    requires Shaped(bs, level, n) && SiblingsDistinct(n) && j < |n.children|
    requires Shaped(bs, level + 1, c) && SiblingsDistinct(c) && c.name == n.children[j].name
    ensures Shaped(bs, level, n.(children := n.children[j := c]))
    ensures SiblingsDistinct(n.(children := n.children[j := c]))
  {
    var m := n.(children := n.children[j := c]);
    assert forall k | 0 <= k < |m.children| :: m.children[k].name == n.children[k].name;
    assert forall k | 0 <= k < |m.children| && k != j :: m.children[k] == n.children[k];
  }

  /** Appending a shaped child whose name no sibling has keeps a non-leaf parent shaped with distinct siblings. */
  lemma {:induction false} AppendChild<V>(bs: seq<BlockLevel>, level: nat, n: Node<V>, c: Node<V>)
    requires level + 1 < |bs| && LineShaped(bs[level], n)
    requires n.children == [] || Shaped(bs, level, n)
    requires SiblingsDistinct(n) && Shaped(bs, level + 1, c) && SiblingsDistinct(c)
    requires forall k | 0 <= k < |n.children| :: n.children[k].name != c.name
    ensures Shaped(bs, level, n.(children := n.children + [c]))
    ensures SiblingsDistinct(n.(children := n.children + [c]))
  {
    var m := n.(children := n.children + [c]);
    assert forall k | 0 <= k < |n.children| :: m.children[k] == n.children[k];
    assert m.children[|n.children|] == c;
  }
}
