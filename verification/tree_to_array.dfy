/**
 * The decoder of debiai_utils: flattens a block tree into table rows, depth
 * first. A node's own line (its name, then its declared values group by
 * group) is put in front of every row its children produce; a node without
 * children gives its line alone.
 */
module TreeToArray {
  import opened Schema
  import opened Tree

  /** A cell of a decoded row: a block name or one stored value. */
  datatype Field<V> = Name(text: string) | Data(value: V)

  type Rows<V> = seq<seq<Field<V>>>

  /** The size of a top-level patch. */
  const PATCH_SIZE: nat := 700

  /**
   * Values the decoder can read for every column the level declares: each
   * group with columns is present with at least as many values; a group
   * declared with no columns is never read, so it may be absent.
   */
  predicate LineReadable<V>(b: BlockLevel, values: map<Group, seq<V>>)
  {
    forall g | g in b.groups :: |b.groups[g]| == 0 || (g in values && |values[g]| >= |b.groups[g]|)
  }

  /**
   * A node the decoder can read at `level`: the level exists, its values
   * can be read for the declared columns, and its children (if any) can be
   * read at the next level.
   */
  predicate Conforms<V>(bs: seq<BlockLevel>, level: nat, n: Node<V>)
    decreases n
  {
    level < |bs| &&
    LineReadable(bs[level], n.values) &&
    forall k | 0 <= k < |n.children| :: Conforms(bs, level + 1, n.children[k])
  }

  /** The values of the given groups that the level declares, group after group. */
  function GroupLine<V>(b: BlockLevel, values: map<Group, seq<V>>, gs: seq<Group>): (r: seq<Field<V>>)
    requires LineReadable(b, values)
    ensures |r| == |ColumnsOf(b, gs)|
  {
    if gs == [] then []
    else
      var here := if gs[0] in b.groups && |b.groups[gs[0]]| > 0 then values[gs[0]][..|b.groups[gs[0]]|] else [];
      seq(|here|, i requires 0 <= i < |here| => Data(here[i])) + GroupLine(b, values, gs[1..])
  }

  /** A node's own line: its name, then its declared values in contexts/inputs/groundTruth/others order. */
  function Line<V>(bs: seq<BlockLevel>, level: nat, n: Node<V>): (r: seq<Field<V>>)
    requires Conforms(bs, level, n)
    ensures |r| == 1 + |ColumnsOf(bs[level], Groups)| && r[0] == Name(n.name)
  {
    [Name(n.name)] + GroupLine(bs[level], n.values, Groups)
  }

  /**
   * A group declared with no columns is never read: a childless node without
   * it decodes to its name alone.
   */
  lemma {:induction false} EmptyGroupUnread<V>(name: string, g: Group, node: string)
    ensures Conforms([BlockLevel(name, map[g := []])], 0, Node<V>.Node(node, map[], []))
    ensures BlockData([BlockLevel(name, map[g := []])], 0, Node<V>.Node(node, map[], [])) == [[Name(node)]]
  {
    var bs := [BlockLevel(name, map[g := []])];
    var n := Node<V>.Node(node, map[], []);
    assert LineReadable(bs[0], n.values);
    GroupLineEmpty(bs[0], n.values, Groups);
    assert Line(bs, 0, n) == [Name(node)];
    assert BlockData(bs, 0, n) == [Line(bs, 0, n)];
  }

  /** The line of a level whose groups declare no columns is empty. */
  lemma {:induction false} GroupLineEmpty<V>(b: BlockLevel, values: map<Group, seq<V>>, gs: seq<Group>)
    requires forall g | g in b.groups :: b.groups[g] == []
    ensures LineReadable(b, values) && GroupLine(b, values, gs) == []
    decreases |gs|
  {
    if gs != [] {
      GroupLineEmpty(b, values, gs[1..]);
    }
  }

  /** `line` put in front of each row. */
  function PrefixAll<V>(line: seq<Field<V>>, rows: Rows<V>): (r: Rows<V>)
    ensures |r| == |rows| && forall i | 0 <= i < |rows| :: r[i] == line + rows[i]
  {
    seq(|rows|, i requires 0 <= i < |rows| => line + rows[i])
  }

  /** _get_block_data: the rows of a node at `level`. */
  function BlockData<V>(bs: seq<BlockLevel>, level: nat, n: Node<V>): Rows<V>
    requires Conforms(bs, level, n)
    decreases n, 1
  {
    if n.children == [] then [Line(bs, level, n)]
    else PrefixAll(Line(bs, level, n), ForestData(bs, level + 1, n.children))
  }

  /** The rows of each node in turn, stacked. */
  function ForestData<V>(bs: seq<BlockLevel>, level: nat, ns: seq<Node<V>>): Rows<V>
    requires forall k | 0 <= k < |ns| :: Conforms(bs, level, ns[k])
    decreases ns, 0
  {
    if ns == [] then []
    else BlockData(bs, level, ns[0]) + ForestData(bs, level, ns[1..])
  }

  /** The patches' rows, stacked in order. */
  function Join<V>(patches: seq<Rows<V>>): Rows<V>
  {
    if patches == [] then [] else Join(patches[..|patches| - 1]) + patches[|patches| - 1]
  }

  lemma {:induction false} JoinSnoc<V>(patches: seq<Rows<V>>, p: Rows<V>)
    ensures Join(patches + [p]) == Join(patches) + p
  {
    assert (patches + [p])[..|patches|] == patches;
  }

  /** The rows of the first k top-level nodes. */
  function Prefix<V>(bs: seq<BlockLevel>, tree: seq<Node<V>>, k: nat): Rows<V>
    requires k <= |tree| && forall j | 0 <= j < |tree| :: Conforms(bs, 0, tree[j])
  {
    assert forall j | 0 <= j < k :: tree[..k][j] == tree[j];
    ForestData(bs, 0, tree[..k])
  }

  lemma {:induction false} PrefixStep<V>(bs: seq<BlockLevel>, tree: seq<Node<V>>, k: nat)
    requires k < |tree| && forall j | 0 <= j < |tree| :: Conforms(bs, 0, tree[j])
    ensures Prefix(bs, tree, k + 1) == Prefix(bs, tree, k) + BlockData(bs, 0, tree[k])
  {
    assert forall j | 0 <= j < k :: tree[..k][j] == tree[j];
    ForestDataSnoc(bs, 0, tree[..k], tree[k]);
    assert tree[..k + 1] == tree[..k] + [tree[k]];
  }

  /**
   * The first loop of _tree_to_array: the rows of the top-level nodes are
   * gathered in patches of 700 nodes; stacked, the patches give the rows of
   * all the nodes in order.
   */
  method Patches<V>(bs: seq<BlockLevel>, tree: seq<Node<V>>) returns (patches: seq<Rows<V>>)
    requires |tree| > 0 && forall k | 0 <= k < |tree| :: Conforms(bs, 0, tree[k])
    ensures |patches| > 0 && Join(patches) == ForestData(bs, 0, tree)
  {
    var i := 0;
    patches := [];
    var current := BlockData(bs, 0, tree[0]);
    PrefixStep(bs, tree, 0);
    var k := 1;
    while k < |tree|
      invariant 1 <= k <= |tree|
      invariant 0 <= i < PATCH_SIZE
      invariant Join(patches) + current == Prefix(bs, tree, k)
    {
      i := i + 1;
      PrefixStep(bs, tree, k);
      if i == PATCH_SIZE {
        JoinSnoc(patches, current);
        patches := patches + [current];
        current := BlockData(bs, 0, tree[k]);
        i := 0;
      } else {
        RowsAssoc(Join(patches), current, BlockData(bs, 0, tree[k]));
        current := current + BlockData(bs, 0, tree[k]);
      }
      k := k + 1;
    }
    JoinSnoc(patches, current);
    patches := patches + [current];
    assert tree[..k] == tree;
  }

  /** The second loop of _tree_to_array: the patches stacked in order, starting from the first. */
  method StackPatches<V>(patches: seq<Rows<V>>) returns (rows: Rows<V>)
    requires |patches| > 0
    ensures rows == Join(patches)
  {
    rows := patches[0];
    assert patches[..1] == [] + [patches[0]];
    JoinSnoc([], patches[0]);
    for j := 1 to |patches|
      invariant rows == Join(patches[..j])
    {
      JoinSnoc(patches[..j], patches[j]);
      assert patches[..j + 1] == patches[..j] + [patches[j]];
      rows := rows + patches[j];
    }
    assert patches[..|patches|] == patches;
  }

  /** _tree_to_array: the rows of the top-level nodes, depth first, in order; none for an empty tree. */
  method TreeToArray<V>(bs: seq<BlockLevel>, tree: seq<Node<V>>) returns (rows: Rows<V>)
    requires forall k | 0 <= k < |tree| :: Conforms(bs, 0, tree[k])
    ensures rows == ForestData(bs, 0, tree)
  {
    if |tree| == 0 {
      return [];
    }
    var patches := Patches(bs, tree);
    rows := StackPatches(patches);
  }

  lemma {:induction false} ForestDataSnoc<V>(bs: seq<BlockLevel>, level: nat, ns: seq<Node<V>>, n: Node<V>)
    requires forall k | 0 <= k < |ns| :: Conforms(bs, level, ns[k])
    requires Conforms(bs, level, n)
    ensures forall k | 0 <= k < |ns + [n]| :: Conforms(bs, level, (ns + [n])[k])
    ensures ForestData(bs, level, ns + [n]) == ForestData(bs, level, ns) + BlockData(bs, level, n)
    decreases ns
  {
    var ms := ns + [n];
    forall k | 0 <= k < |ms| ensures Conforms(bs, level, ms[k]) {
      if k < |ns| {
        assert ms[k] == ns[k];
      }
    }
    if ns == [] {
      assert ms[1..] == [];
    } else {
      var rest := ns[1..];
      assert forall k | 0 <= k < |rest| :: rest[k] == ns[k + 1];
      assert ms[0] == ns[0] && ms[1..] == rest + [n];
      ForestDataSnoc(bs, level, rest, n);
      var first := BlockData(bs, level, ns[0]);
      RowsAssoc(first, ForestData(bs, level, rest), BlockData(bs, level, n));
    }
  }

  lemma {:induction false} RowsAssoc<V>(a: Rows<V>, b: Rows<V>, c: Rows<V>)
    ensures a + (b + c) == (a + b) + c
  {
  }

  // Row count, row prefix and row width.

  /** A node yields one row per leaf below it; a forest, the sum over its nodes. */
  lemma {:induction false} RowCount<V>(bs: seq<BlockLevel>, level: nat, n: Node<V>)
    requires Conforms(bs, level, n)
    ensures |BlockData(bs, level, n)| == Leaves(n)
    decreases n, 1
  {
    if n.children != [] {
      ForestRowCount(bs, level + 1, n.children);
    }
  }

  lemma {:induction false} ForestRowCount<V>(bs: seq<BlockLevel>, level: nat, ns: seq<Node<V>>)
    requires forall k | 0 <= k < |ns| :: Conforms(bs, level, ns[k])
    ensures |ForestData(bs, level, ns)| == LeavesOf(ns)
    decreases ns, 0
  {
    if ns != [] {
      RowCount(bs, level, ns[0]);
      ForestRowCount(bs, level, ns[1..]);
    }
  }

  /** Every row of a node starts with the node's own line; a node without children gives exactly that line. */
  lemma {:induction false} RowsStartWithLine<V>(bs: seq<BlockLevel>, level: nat, n: Node<V>)
    requires Conforms(bs, level, n)
    ensures n.children == [] ==> BlockData(bs, level, n) == [Line(bs, level, n)]
    ensures forall r | r in BlockData(bs, level, n) :: Line(bs, level, n) <= r
  {
  }

  /** In a full-depth tree every row of a node at `level` is as wide as the labels of the levels from there on. */
  lemma {:induction false} RowWidth<V>(bs: seq<BlockLevel>, level: nat, n: Node<V>)
    requires Shaped(bs, level, n)
    ensures Conforms(bs, level, n)
    ensures forall r | r in BlockData(bs, level, n) :: |r| == Width(bs[level..])
    decreases n, 1
  {
    ShapedConforms(bs, level, n);
    assert bs[level..] == [bs[level]] + bs[level + 1..];
    assert Width(bs[level..]) == LineWidth(bs[level]) + Width(bs[level + 1..]);
    if n.children != [] {
      ForestRowWidth(bs, level + 1, n.children);
    } else {
      assert bs[level + 1..] == [];
    }
  }

  lemma {:induction false} ForestRowWidth<V>(bs: seq<BlockLevel>, level: nat, ns: seq<Node<V>>)
    requires forall k | 0 <= k < |ns| :: Shaped(bs, level, ns[k])
    ensures forall k | 0 <= k < |ns| :: Conforms(bs, level, ns[k])
    ensures forall r | r in ForestData(bs, level, ns) :: |r| == Width(bs[level..])
    decreases ns, 0
  {
    assert forall k | 0 <= k < |ns| :: Conforms(bs, level, ns[k]) by {
      forall k | 0 <= k < |ns| ensures Conforms(bs, level, ns[k]) {
        ShapedConforms(bs, level, ns[k]);
      }
    }
    if ns != [] {
      var rest := ns[1..];
      assert forall k | 0 <= k < |rest| :: Shaped(bs, level, rest[k]) by {
        assert forall k | 0 <= k < |rest| :: rest[k] == ns[k + 1];
      }
      RowWidth(bs, level, ns[0]);
      ForestRowWidth(bs, level, rest);
      var head := BlockData(bs, level, ns[0]);
      var tail := ForestData(bs, level, rest);
      assert ForestData(bs, level, ns) == head + tail;
      forall r | r in head + tail ensures |r| == Width(bs[level..]) {
        assert r in head || r in tail;
      }
    }
  }

  lemma {:induction false} ShapedConforms<V>(bs: seq<BlockLevel>, level: nat, n: Node<V>)
    requires Shaped(bs, level, n)
    ensures Conforms(bs, level, n)
    decreases n
  {
    forall k | 0 <= k < |n.children| ensures Conforms(bs, level + 1, n.children[k]) {
      ShapedConforms(bs, level + 1, n.children[k]);
    }
  }

  /** The rows of a full-depth tree are as wide as the project's header row. */
  lemma {:induction false} RowsMatchHeader<V>(bs: seq<BlockLevel>, tree: seq<Node<V>>)
    requires ShapedForest(bs, 0, tree)
    ensures forall k | 0 <= k < |tree| :: Conforms(bs, 0, tree[k])
    ensures forall r | r in ForestData(bs, 0, tree) :: |r| == |Header(bs)|
  {
    ForestRowWidth(bs, 0, tree);
    HeaderWidth(bs);
    assert bs[0..] == bs;
  }
}
