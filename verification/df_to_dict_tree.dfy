/**
 * df_to_dict_tree: builds the block tree from a DataFrame. Rows are grouped
 * into a nested dict keyed by the raw key cell of each level (the root
 * included), in first-seen order; the dicts are then turned into child lists.
 */
module DfToDictTree {
  import opened Wrappers
  import opened Values
  import opened Schema
  import opened Tree
  import opened IndexMap

  /** The 'split' form of a DataFrame: its column labels and its rows of cells. */
  datatype Frame = Frame(columns: seq<string>, data: seq<seq<Cell>>)

  /** Every row of a DataFrame has one cell per column. */
  predicate Rectangular(f: Frame)
  {
    forall k | 0 <= k < |f.data| :: |f.data[k]| == |f.columns|
  }

  /** A block of the intermediate dict tree; its childrenInfoList dict is kept as its entries in insertion order. */
  datatype Block = Block(name: string, values: map<Group, seq<Cell>>, children: seq<Entry>)

  /** A key of a childrenInfoList dict (the raw key cell) and the block stored under it. */
  datatype Entry = Entry(key: Cell, block: Block)

  /** The row's key cell at a level. */
  function KeyCell(bs: seq<BlockLevel>, level: nat, row: seq<Cell>, idx: map<string, nat>): Cell
    requires level < |bs| && Readable(bs, idx, |row|)
  {
    row[idx[bs[level].name]]
  }

  /** The row's key cells, level after level. */
  function KeyPath(bs: seq<BlockLevel>, row: seq<Cell>, idx: map<string, nat>): (p: seq<Cell>)
    requires Readable(bs, idx, |row|)
    ensures |p| == |bs|
  {
    seq(|bs|, level requires 0 <= level < |bs| => KeyCell(bs, level, row, idx))
  }

  function GroupCells(cols: seq<Column>, row: seq<Cell>, idx: map<string, nat>): (vs: seq<Cell>)
    requires forall k | 0 <= k < |cols| :: cols[k].name in idx && idx[cols[k].name] < |row|
    ensures |vs| == |cols|
    ensures forall k | 0 <= k < |cols| :: vs[k] == row[idx[cols[k].name]]
  {
    seq(|cols|, k requires 0 <= k < |cols| => row[idx[cols[k].name]])
  }

  /**
   * __create_block: named by str() of the key cell, with the row's cells for
   * each declared group copied as they are, in column order.
   */
  function CreateBlock(b: BlockLevel, row: seq<Cell>, idx: map<string, nat>): (n: Block)
    requires LevelReadable(b, idx, |row|)
    ensures n.name == ToStr(row[idx[b.name]]) && n.children == [] && ValuesFit(b, n.values)
    ensures forall g, k | g in b.groups && 0 <= k < |b.groups[g]| ::
      n.values[g][k] == row[idx[b.groups[g][k].name]]
  {
    Block(ToStr(row[idx[b.name]]), map g | g in b.groups :: GroupCells(b.groups[g], row, idx), [])
  }

  /** Dict lookup: the entry stored under `key`, if any. */
  function Find(es: seq<Entry>, key: Cell): (r: Option<nat>)
    ensures r.Some? ==> r.value < |es| && es[r.value].key == key
    ensures r.None? ==> forall k | 0 <= k < |es| :: es[k].key != key
  {
    if es == [] then None
    else if es[0].key == key then Some(0)
    else match Find(es[1..], key)
      case Some(j) => Some(j + 1)
      case None => None
  }

  /**
   * One row of the grouping loop, from `level` down: look the row's key up
   * in the children dict, create the block when it is absent, descend.
   */
  function InsertPath(bs: seq<BlockLevel>, level: nat, es: seq<Entry>, row: seq<Cell>, idx: map<string, nat>): seq<Entry>
    requires level <= |bs| && Readable(bs, idx, |row|)
    decreases |bs| - level
  {
    if level == |bs| then es
    else
      var key := KeyCell(bs, level, row, idx);
      match Find(es, key)
      case Some(j) =>
        var b := es[j].block;
        es[j := Entry(key, b.(children := InsertPath(bs, level + 1, b.children, row, idx)))]
      case None =>
        var b := CreateBlock(bs[level], row, idx);
        es + [Entry(key, b.(children := InsertPath(bs, level + 1, b.children, row, idx)))]
  }

  predicate AllReadable(bs: seq<BlockLevel>, idx: map<string, nat>, rows: seq<seq<Cell>>)
  {
    forall k | 0 <= k < |rows| :: Readable(bs, idx, |rows[k]|)
  }

  /** The root's children dict after grouping the rows in order. */
  function Group(bs: seq<BlockLevel>, rows: seq<seq<Cell>>, idx: map<string, nat>): seq<Entry>
    requires AllReadable(bs, idx, rows)
  {
    if rows == [] then []
    else InsertPath(bs, 0, Group(bs, rows[..|rows| - 1], idx), rows[|rows| - 1], idx)
  }

  /** Grouping one more row inserts its path into the groups of the rows before it. */
  lemma {:induction false} GroupSnoc(bs: seq<BlockLevel>, rows: seq<seq<Cell>>, k: nat, idx: map<string, nat>)
    requires AllReadable(bs, idx, rows) && k < |rows|
    ensures AllReadable(bs, idx, rows[..k]) && AllReadable(bs, idx, rows[..k + 1])
    ensures Group(bs, rows[..k + 1], idx) == InsertPath(bs, 0, Group(bs, rows[..k], idx), rows[k], idx)
  {
    assert rows[..k + 1][..k] == rows[..k];
  }

  /**
   * __block_dict_to_array_tree: a block of `level` as a tree node; above the
   * sample level the children dict becomes the list of its values in
   * insertion order, and a sample-level block is kept as it is.
   */
  function ToNode(bs: seq<BlockLevel>, level: nat, e: Entry): (n: Node<Cell>)
    requires level < |bs|
    ensures n.name == e.block.name && n.values == e.block.values
    ensures level == |bs| - 1 ==> n.children == []
    ensures level < |bs| - 1 ==> |n.children| == |e.block.children|
    decreases e
  {
    if level == |bs| - 1 then Node(e.block.name, e.block.values, [])
    else Node(e.block.name, e.block.values, ToNodes(bs, level + 1, e.block.children))
  }

  function ToNodes(bs: seq<BlockLevel>, level: nat, es: seq<Entry>): (ns: seq<Node<Cell>>)
    requires level < |bs|
    ensures |ns| == |es|
    ensures forall k | 0 <= k < |es| :: ns[k] == ToNode(bs, level, es[k])
    decreases es
  {
    if es == [] then []
    else [ToNode(bs, level, es[0])] + ToNodes(bs, level, es[1..])
  }

  /** The converted root: with no level at all the root dict is returned empty. */
  function ToForest(bs: seq<BlockLevel>, es: seq<Entry>): seq<Node<Cell>>
  {
    if |bs| == 0 then [] else ToNodes(bs, 0, es)
  }

  /** The tree df_to_dict_tree returns for a frame holding every required label. */
  function Encoded(bs: seq<BlockLevel>, f: Frame): seq<Node<Cell>>
    requires Rectangular(f) && AllPresent(Required(bs), f.columns)
  {
    FrameReadable(bs, f);
    ToForest(bs, Group(bs, f.data, Positions(Required(bs), f.columns)))
  }

  lemma {:induction false} FrameReadable(bs: seq<BlockLevel>, f: Frame)
    requires Rectangular(f) && AllPresent(Required(bs), f.columns)
    ensures AllReadable(bs, Positions(Required(bs), f.columns), f.data)
  {
    PositionsReadable(bs, f.columns);
  }

  /**
   * df_to_dict_tree: fails on the first required label missing from the
   * columns; otherwise returns the grouped tree, a full-depth tree with
   * distinct keys under every parent whose full key paths are exactly the
   * rows' key paths.
   */
  method DfToDictTree(f: Frame, bs: seq<BlockLevel>) returns (r: Result<seq<Node<Cell>>, Missing>)
    requires Rectangular(f)
    ensures r.Err? <==> MissingAt(Required(bs), f.columns) < |Required(bs)|
    ensures r.Err? ==> r.error == Missing(Required(bs)[MissingAt(Required(bs), f.columns)])
    ensures r.Ok? ==> AllPresent(Required(bs), f.columns) && r.value == Encoded(bs, f)
    ensures r.Ok? && f.data == [] ==> r.value == []
  {
    var found := BuildIndexMap(bs, f.columns);
    if found.Err? {
      return Err(found.error);
    }
    var idx := found.value;
    FrameReadable(bs, f);
    var root: seq<Entry> := [];
    var k := 0;
    while k < |f.data|
      invariant 0 <= k <= |f.data|
      invariant AllReadable(bs, idx, f.data[..k])
      invariant root == Group(bs, f.data[..k], idx)
    {
      GroupSnoc(bs, f.data, k, idx);
      root := InsertPath(bs, 0, root, f.data[k], idx);
      k := k + 1;
    }
    assert f.data[..k] == f.data;
    r := Ok(ToForest(bs, root));
  }

  // Well-formedness of the dict tree.

  /** No two entries of one children dict share a key. */
  predicate DistinctKeys(es: seq<Entry>)
  {
    forall i, j | 0 <= i < j < |es| :: es[i].key != es[j].key
  }

  /**
   * An entry of `level`: its block is named by str() of its key, its values
   * fit the level, sample-level blocks have no children and every other
   * block has a well-formed, non-empty children dict.
   */
  predicate EntryOk(bs: seq<BlockLevel>, level: nat, e: Entry)
    decreases e, 0
  {
    level < |bs| &&
    e.block.name == ToStr(e.key) &&
    ValuesFit(bs[level], e.block.values) &&
    (level == |bs| - 1 ==> e.block.children == []) &&
    (level < |bs| - 1 ==> e.block.children != [] && Wf(bs, level + 1, e.block.children))
  }

  predicate Wf(bs: seq<BlockLevel>, level: nat, es: seq<Entry>)
    decreases es, 1
  {
    DistinctKeys(es) && forall k | 0 <= k < |es| :: EntryOk(bs, level, es[k])
  }

  /** Some chain of entries, starting in `es`, is keyed p[0], p[1], ... */
  predicate HasKeys(es: seq<Entry>, p: seq<Cell>)
    decreases |p|
  {
    p == [] || exists i | 0 <= i < |es| :: es[i].key == p[0] && HasKeys(es[i].block.children, p[1..])
  }

  lemma {:induction false} ReplaceEntry(bs: seq<BlockLevel>, level: nat, es: seq<Entry>, j: nat, e: Entry)
    requires Wf(bs, level, es) && j < |es| && EntryOk(bs, level, e) && e.key == es[j].key
    ensures Wf(bs, level, es[j := e])
  {
    var out := es[j := e];
    assert forall k | 0 <= k < |out| :: out[k].key == es[k].key;
    assert forall k | 0 <= k < |out| && k != j :: out[k] == es[k];
  }

  lemma {:induction false} AppendEntry(bs: seq<BlockLevel>, level: nat, es: seq<Entry>, e: Entry)
    requires Wf(bs, level, es) && EntryOk(bs, level, e)
    requires forall k | 0 <= k < |es| :: es[k].key != e.key
    ensures Wf(bs, level, es + [e])
  {
    var out := es + [e];
    assert forall k | 0 <= k < |es| :: out[k] == es[k];
    assert out[|es|] == e;
  }

  /** Inserting a row keeps a children dict well formed and makes the rest of the row's key path present. */
  lemma {:induction false} InsertWf(bs: seq<BlockLevel>, level: nat, es: seq<Entry>, row: seq<Cell>, idx: map<string, nat>)
    requires level < |bs| && Readable(bs, idx, |row|) && Wf(bs, level, es)
    ensures Wf(bs, level, InsertPath(bs, level, es, row, idx))
    ensures HasKeys(InsertPath(bs, level, es, row, idx), KeyPath(bs, row, idx)[level..])
    decreases |bs| - level
  {
    var key := KeyCell(bs, level, row, idx);
    var p := KeyPath(bs, row, idx)[level..];
    assert p[0] == key && p[1..] == KeyPath(bs, row, idx)[level + 1..];
    var out := InsertPath(bs, level, es, row, idx);
    match Find(es, key)
    case Some(j) =>
      var b := es[j].block;
      var kids := InsertPath(bs, level + 1, b.children, row, idx);
      if level + 1 < |bs| {
        InsertWf(bs, level + 1, b.children, row, idx);
      }
      ReplaceEntry(bs, level, es, j, Entry(key, b.(children := kids)));
      assert out[j].key == p[0] && HasKeys(out[j].block.children, p[1..]);
    case None =>
      var b := CreateBlock(bs[level], row, idx);
      var kids := InsertPath(bs, level + 1, b.children, row, idx);
      if level + 1 < |bs| {
        InsertWf(bs, level + 1, b.children, row, idx);
      }
      AppendEntry(bs, level, es, Entry(key, b.(children := kids)));
      assert out[|es|].key == p[0] && HasKeys(out[|es|].block.children, p[1..]);
  }

  /** Inserting a row never loses a key path. */
  lemma {:induction false} InsertKeeps(bs: seq<BlockLevel>, level: nat, es: seq<Entry>, row: seq<Cell>, idx: map<string, nat>, p: seq<Cell>)
    requires level <= |bs| && Readable(bs, idx, |row|) && HasKeys(es, p)
    ensures HasKeys(InsertPath(bs, level, es, row, idx), p)
    decreases |bs| - level
  {
    if level < |bs| && p != [] {
      var out := InsertPath(bs, level, es, row, idx);
      var t :| 0 <= t < |es| && es[t].key == p[0] && HasKeys(es[t].block.children, p[1..]);
      match Find(es, KeyCell(bs, level, row, idx))
      case Some(j) =>
        if t == j {
          InsertKeeps(bs, level + 1, es[j].block.children, row, idx, p[1..]);
        }
        assert out[t].key == p[0] && HasKeys(out[t].block.children, p[1..]);
      case None =>
        assert out[t] == es[t];
    }
  }

  /** Every key path after an insertion was there before or is a prefix of the row's own key path. */
  lemma {:induction false} InsertSound(bs: seq<BlockLevel>, level: nat, es: seq<Entry>, row: seq<Cell>, idx: map<string, nat>, p: seq<Cell>)
    requires level <= |bs| && Readable(bs, idx, |row|)
    requires HasKeys(InsertPath(bs, level, es, row, idx), p)
    ensures HasKeys(es, p) || p <= KeyPath(bs, row, idx)[level..]
    decreases |bs| - level
  {
    if level < |bs| && p != [] {
      var key := KeyCell(bs, level, row, idx);
      var q := KeyPath(bs, row, idx)[level..];
      assert q[0] == key && q[1..] == KeyPath(bs, row, idx)[level + 1..];
      var out := InsertPath(bs, level, es, row, idx);
      var t :| 0 <= t < |out| && out[t].key == p[0] && HasKeys(out[t].block.children, p[1..]);
      match Find(es, key)
      case Some(j) =>
        if t == j {
          InsertSound(bs, level + 1, es[j].block.children, row, idx, p[1..]);
          if !HasKeys(es, p) {
            assert !HasKeys(es[j].block.children, p[1..]);
          }
        } else {
          assert es[t] == out[t];
        }
      case None =>
        if t < |es| {
          assert es[t] == out[t];
        } else {
          InsertSound(bs, level + 1, CreateBlock(bs[level], row, idx).children, row, idx, p[1..]);
          assert !HasKeys([], p[1..]) || p[1..] == [];
        }
    }
  }

  /** The grouped rows form a well-formed dict tree holding every row's key path. */
  lemma {:induction false} GroupWf(bs: seq<BlockLevel>, rows: seq<seq<Cell>>, idx: map<string, nat>)
    requires |bs| > 0 && AllReadable(bs, idx, rows)
    ensures Wf(bs, 0, Group(bs, rows, idx))
    ensures forall k | 0 <= k < |rows| :: HasKeys(Group(bs, rows, idx), KeyPath(bs, rows[k], idx))
  {
    if rows != [] {
      var init := rows[..|rows| - 1];
      var last := rows[|rows| - 1];
      assert AllReadable(bs, idx, init) by {
        assert forall k | 0 <= k < |init| :: init[k] == rows[k];
      }
      GroupWf(bs, init, idx);
      InsertWf(bs, 0, Group(bs, init, idx), last, idx);
      assert KeyPath(bs, last, idx)[0..] == KeyPath(bs, last, idx);
      forall k | 0 <= k < |rows| - 1 ensures HasKeys(Group(bs, rows, idx), KeyPath(bs, rows[k], idx)) {
        assert init[k] == rows[k];
        InsertKeeps(bs, 0, Group(bs, init, idx), last, idx, KeyPath(bs, rows[k], idx));
      }
    }
  }

  /** Every non-empty key path of the grouped tree starts some row's key path. */
  lemma {:induction false} GroupSound(bs: seq<BlockLevel>, rows: seq<seq<Cell>>, idx: map<string, nat>, p: seq<Cell>)
    requires AllReadable(bs, idx, rows) && p != [] && HasKeys(Group(bs, rows, idx), p)
    ensures exists k | 0 <= k < |rows| :: p <= KeyPath(bs, rows[k], idx)
  {
    if rows == [] {
      assert false;
    } else {
      var init := rows[..|rows| - 1];
      var last := rows[|rows| - 1];
      assert AllReadable(bs, idx, init) by {
        assert forall k | 0 <= k < |init| :: init[k] == rows[k];
      }
      InsertSound(bs, 0, Group(bs, init, idx), last, idx, p);
      assert KeyPath(bs, last, idx)[0..] == KeyPath(bs, last, idx);
      if HasKeys(Group(bs, init, idx), p) {
        GroupSound(bs, init, idx, p);
        var k :| 0 <= k < |init| && p <= KeyPath(bs, init[k], idx);
        assert init[k] == rows[k];
      }
    }
  }

  /** A full-length key path is in the grouped tree exactly when some row has it. */
  lemma {:induction false} GroupPaths(bs: seq<BlockLevel>, rows: seq<seq<Cell>>, idx: map<string, nat>, p: seq<Cell>)
    requires |bs| > 0 && AllReadable(bs, idx, rows) && |p| == |bs|
    ensures HasKeys(Group(bs, rows, idx), p) <==> exists k | 0 <= k < |rows| :: p == KeyPath(bs, rows[k], idx)
  {
    GroupWf(bs, rows, idx);
    if HasKeys(Group(bs, rows, idx), p) {
      GroupSound(bs, rows, idx, p);
      var k :| 0 <= k < |rows| && p <= KeyPath(bs, rows[k], idx);
      assert p == KeyPath(bs, rows[k], idx);
    }
  }

  // First row wins: later rows only add entries.

  /**
   * `after` keeps every entry of `before`, at the same position, with the
   * same key, name and values, and extends its children in the same way.
   */
  predicate Extends(before: seq<Entry>, after: seq<Entry>)
    decreases before, 1
  {
    |before| <= |after| && forall k | 0 <= k < |before| :: EntryExtends(before[k], after[k])
  }

  /** The same key, name and values, and children extended in the same way. */
  predicate EntryExtends(x: Entry, y: Entry)
    decreases x, 0
  {
    y.key == x.key && y.block.name == x.block.name && y.block.values == x.block.values &&
    Extends(x.block.children, y.block.children)
  }

  lemma {:induction false} ExtendsRefl(es: seq<Entry>)
    ensures Extends(es, es)
    decreases es, 1
  {
    forall k | 0 <= k < |es| ensures EntryExtends(es[k], es[k]) {
      EntryExtendsRefl(es[k]);
    }
  }

  lemma {:induction false} EntryExtendsRefl(e: Entry)
    ensures EntryExtends(e, e)
    decreases e, 0
  {
    ExtendsRefl(e.block.children);
  }

  lemma {:induction false} ExtendsTrans(a: seq<Entry>, b: seq<Entry>, c: seq<Entry>)
    requires Extends(a, b) && Extends(b, c)
    ensures Extends(a, c)
    decreases a, 1
  {
    forall k | 0 <= k < |a| ensures EntryExtends(a[k], c[k]) {
      EntryExtendsTrans(a[k], b[k], c[k]);
    }
  }

  lemma {:induction false} EntryExtendsTrans(x: Entry, y: Entry, z: Entry)
    requires EntryExtends(x, y) && EntryExtends(y, z)
    ensures EntryExtends(x, z)
    decreases x, 0
  {
    ExtendsTrans(x.block.children, y.block.children, z.block.children);
  }

  lemma {:induction false} InsertExtends(bs: seq<BlockLevel>, level: nat, es: seq<Entry>, row: seq<Cell>, idx: map<string, nat>)
    requires level <= |bs| && Readable(bs, idx, |row|)
    ensures Extends(es, InsertPath(bs, level, es, row, idx))
    decreases |bs| - level
  {
    var out := InsertPath(bs, level, es, row, idx);
    if level == |bs| {
      ExtendsRefl(es);
    } else {
      match Find(es, KeyCell(bs, level, row, idx))
      case Some(j) =>
        InsertExtends(bs, level + 1, es[j].block.children, row, idx);
        forall k | 0 <= k < |es| ensures EntryExtends(es[k], out[k]) {
          if k != j {
            EntryExtendsRefl(es[k]);
          }
        }
      case None =>
        forall k | 0 <= k < |es| ensures EntryExtends(es[k], out[k]) {
          EntryExtendsRefl(es[k]);
        }
    }
  }

  /**
   * The tree grouped from a prefix of the rows is kept by the rest: blocks
   * keep the values of the row that created them, and children keep their
   * first-seen order.
   */
  lemma {:induction false} FirstRowWins(bs: seq<BlockLevel>, rows: seq<seq<Cell>>, idx: map<string, nat>, i: nat)
    requires AllReadable(bs, idx, rows) && i <= |rows|
    ensures AllReadable(bs, idx, rows[..i])
    ensures Extends(Group(bs, rows[..i], idx), Group(bs, rows, idx))
    decreases |rows|
  {
    assert forall k | 0 <= k < i :: rows[..i][k] == rows[k];
    if i == |rows| {
      assert rows[..i] == rows;
      ExtendsRefl(Group(bs, rows, idx));
    } else {
      var init := rows[..|rows| - 1];
      assert forall k | 0 <= k < |init| :: init[k] == rows[k];
      FirstRowWins(bs, init, idx, i);
      assert init[..i] == rows[..i];
      InsertExtends(bs, 0, Group(bs, init, idx), rows[|rows| - 1], idx);
      ExtendsTrans(Group(bs, rows[..i], idx), Group(bs, init, idx), Group(bs, rows, idx));
    }
  }

  // The converted tree.

  /** Converting a well-formed dict tree gives a full-depth tree named by str() of the keys. */
  lemma {:induction false} ToNodesShaped(bs: seq<BlockLevel>, level: nat, es: seq<Entry>)
    requires level < |bs| && Wf(bs, level, es)
    ensures ShapedForest(bs, level, ToNodes(bs, level, es))
    ensures forall k | 0 <= k < |es| :: ToNodes(bs, level, es)[k].name == ToStr(es[k].key)
    decreases es, 1
  {
    forall k | 0 <= k < |es| ensures Shaped(bs, level, ToNodes(bs, level, es)[k]) {
      ToNodeShaped(bs, level, es[k]);
    }
  }

  lemma {:induction false} ToNodeShaped(bs: seq<BlockLevel>, level: nat, e: Entry)
    requires level < |bs| && EntryOk(bs, level, e)
    ensures Shaped(bs, level, ToNode(bs, level, e))
    decreases e, 0
  {
    if level < |bs| - 1 {
      ToNodesShaped(bs, level + 1, e.block.children);
    }
  }

  // Leaves and key paths.

  /** The full key paths of a dict tree, leaf by leaf, in order. */
  function KeyPaths(es: seq<Entry>): seq<seq<Cell>>
    decreases es, 1
  {
    if es == [] then [] else EntryPaths(es[0]) + KeyPaths(es[1..])
  }

  function EntryPaths(e: Entry): seq<seq<Cell>>
    decreases e, 0
  {
    if e.block.children == [] then [[e.key]] else Prepend(e.key, KeyPaths(e.block.children))
  }

  function Prepend(c: Cell, ps: seq<seq<Cell>>): (r: seq<seq<Cell>>)
    ensures |r| == |ps| && forall i | 0 <= i < |ps| :: r[i] == [c] + ps[i]
  {
    seq(|ps|, i requires 0 <= i < |ps| => [c] + ps[i])
  }

  predicate NoDup<T(==)>(s: seq<T>)
  {
    forall i, j | 0 <= i < j < |s| :: s[i] != s[j]
  }

  lemma {:induction false} KeyPathsMember(es: seq<Entry>, p: seq<Cell>)
    ensures p in KeyPaths(es) <==> exists i | 0 <= i < |es| :: p in EntryPaths(es[i])
    decreases es
  {
    if es != [] {
      KeyPathsMember(es[1..], p);
      if p in KeyPaths(es[1..]) {
        var i :| 0 <= i < |es[1..]| && p in EntryPaths(es[1..][i]);
        assert es[i + 1] == es[1..][i];
      }
      if exists i | 0 <= i < |es| :: p in EntryPaths(es[i]) {
        var i :| 0 <= i < |es| && p in EntryPaths(es[i]);
        if i > 0 {
          assert es[1..][i - 1] == es[i];
        }
      }
    }
  }

  /** A path of a leaf below e starts with e's key. */
  lemma {:induction false} EntryPathsHead(e: Entry, p: seq<Cell>)
    requires p in EntryPaths(e)
    ensures |p| > 0 && p[0] == e.key
  {
  }

  /** In a well-formed dict tree the leaf paths are exactly the full-length key paths. */
  lemma {:induction false} KeyPathsIff(bs: seq<BlockLevel>, level: nat, es: seq<Entry>, p: seq<Cell>)
    requires level < |bs| && Wf(bs, level, es)
    ensures p in KeyPaths(es) <==> |p| == |bs| - level && HasKeys(es, p)
    decreases es, 1
  {
    KeyPathsMember(es, p);
    if p in KeyPaths(es) {
      var i :| 0 <= i < |es| && p in EntryPaths(es[i]);
      EntryPathsIff(bs, level, es[i], p);
    }
    if |p| == |bs| - level && HasKeys(es, p) {
      var i :| 0 <= i < |es| && es[i].key == p[0] && HasKeys(es[i].block.children, p[1..]);
      EntryPathsIff(bs, level, es[i], p);
    }
  }

  lemma {:induction false} EntryPathsIff(bs: seq<BlockLevel>, level: nat, e: Entry, p: seq<Cell>)
    requires level < |bs| && EntryOk(bs, level, e)
    ensures p in EntryPaths(e) <==> |p| == |bs| - level && p[0] == e.key && HasKeys(e.block.children, p[1..])
    decreases e, 0
  {
    if level < |bs| - 1 {
      var kids := e.block.children;
      if p != [] {
        KeyPathsIff(bs, level + 1, kids, p[1..]);
        if p[0] == e.key && p[1..] in KeyPaths(kids) {
          var i :| 0 <= i < |KeyPaths(kids)| && KeyPaths(kids)[i] == p[1..];
          assert Prepend(e.key, KeyPaths(kids))[i] == p;
        }
      }
      if p in EntryPaths(e) {
        var i :| 0 <= i < |KeyPaths(kids)| && Prepend(e.key, KeyPaths(kids))[i] == p;
        assert p[1..] == KeyPaths(kids)[i];
      }
    } else {
      if |p| == 1 {
        assert p == [p[0]];
      }
    }
  }

  /** In a well-formed dict tree no two leaves share a key path. */
  lemma {:induction false} KeyPathsNoDup(bs: seq<BlockLevel>, level: nat, es: seq<Entry>)
    requires level < |bs| && Wf(bs, level, es)
    ensures NoDup(KeyPaths(es))
    decreases es, 1
  {
    if es != [] {
      var head := EntryPaths(es[0]);
      var tail := KeyPaths(es[1..]);
      EntryPathsNoDup(bs, level, es[0]);
      assert Wf(bs, level, es[1..]) by {
        assert forall k | 0 <= k < |es[1..]| :: es[1..][k] == es[k + 1];
      }
      KeyPathsNoDup(bs, level, es[1..]);
      forall i, j | 0 <= i < |head| && 0 <= j < |tail| ensures head[i] != tail[j] {
        EntryPathsHead(es[0], head[i]);
        KeyPathsMember(es[1..], tail[j]);
        var t :| 0 <= t < |es[1..]| && tail[j] in EntryPaths(es[1..][t]);
        EntryPathsHead(es[1..][t], tail[j]);
        assert es[1..][t] == es[t + 1];
      }
      var all := KeyPaths(es);
      assert all == head + tail;
      forall i, j | 0 <= i < j < |all| ensures all[i] != all[j] {
        if j < |head| {
          assert all[i] == head[i] && all[j] == head[j];
        } else if i >= |head| {
          assert all[i] == tail[i - |head|] && all[j] == tail[j - |head|];
        } else {
          assert all[i] == head[i] && all[j] == tail[j - |head|];
        }
      }
    }
  }

  lemma {:induction false} EntryPathsNoDup(bs: seq<BlockLevel>, level: nat, e: Entry)
    requires level < |bs| && EntryOk(bs, level, e)
    ensures NoDup(EntryPaths(e))
    decreases e, 0
  {
    if level < |bs| - 1 {
      KeyPathsNoDup(bs, level + 1, e.block.children);
      var ps := KeyPaths(e.block.children);
      var r := Prepend(e.key, ps);
      forall i, j | 0 <= i < j < |r| ensures r[i] != r[j] {
        assert r[i][1..] == ps[i] && r[j][1..] == ps[j];
      }
    }
  }

  /** Each leaf of the converted tree carries one key path of the dict tree. */
  lemma {:induction false} LeavesAreKeyPaths(bs: seq<BlockLevel>, level: nat, es: seq<Entry>)
    requires level < |bs| && Wf(bs, level, es)
    ensures LeavesOf(ToNodes(bs, level, es)) == |KeyPaths(es)|
    decreases es, 1
  {
    if es != [] {
      var ns := ToNodes(bs, level, es);
      assert ns[1..] == ToNodes(bs, level, es[1..]);
      assert Wf(bs, level, es[1..]) by {
        assert forall k | 0 <= k < |es[1..]| :: es[1..][k] == es[k + 1];
      }
      EntryLeaves(bs, level, es[0]);
      LeavesAreKeyPaths(bs, level, es[1..]);
    }
  }

  lemma {:induction false} EntryLeaves(bs: seq<BlockLevel>, level: nat, e: Entry)
    requires level < |bs| && EntryOk(bs, level, e)
    ensures Leaves(ToNode(bs, level, e)) == |EntryPaths(e)|
    decreases e, 0
  {
    if level < |bs| - 1 {
      LeavesAreKeyPaths(bs, level + 1, e.block.children);
    }
  }

  /** A sequence without duplicates has as many distinct elements as it is long. */
  lemma {:induction false} NoDupCard<T>(s: seq<T>)
    requires NoDup(s)
    ensures |set x | x in s| == |s|
  {
    if s != [] {
      assert NoDup(s[1..]) by {
        assert forall k | 0 <= k < |s[1..]| :: s[1..][k] == s[k + 1];
      }
      NoDupCard(s[1..]);
      assert (set x | x in s) == {s[0]} + (set x | x in s[1..]);
      assert s[0] !in s[1..];
    }
  }

  /** The distinct key paths of a frame's rows. */
  function FramePaths(bs: seq<BlockLevel>, f: Frame): set<seq<Cell>>
    requires Rectangular(f) && AllPresent(Required(bs), f.columns)
  {
    FrameReadable(bs, f);
    set k | 0 <= k < |f.data| :: KeyPath(bs, f.data[k], Positions(Required(bs), f.columns))
  }

  /**
   * The tree built from a frame has exactly one leaf per distinct full key
   * path of its rows: duplicate rows share a leaf, distinct paths never do.
   */
  lemma {:induction false} LeavesAreDistinctPaths(bs: seq<BlockLevel>, f: Frame)
    requires |bs| > 0 && Rectangular(f) && AllPresent(Required(bs), f.columns)
    ensures ShapedForest(bs, 0, Encoded(bs, f))
    ensures LeavesOf(Encoded(bs, f)) == |FramePaths(bs, f)|
  {
    var idx := Positions(Required(bs), f.columns);
    FrameReadable(bs, f);
    var es := Group(bs, f.data, idx);
    GroupWf(bs, f.data, idx);
    ToNodesShaped(bs, 0, es);
    LeavesAreKeyPaths(bs, 0, es);
    KeyPathsNoDup(bs, 0, es);
    NoDupCard(KeyPaths(es));
    assert (set x | x in KeyPaths(es)) == FramePaths(bs, f) by {
      forall p ensures p in KeyPaths(es) <==> p in FramePaths(bs, f) {
        KeyPathsIff(bs, 0, es, p);
        if p in FramePaths(bs, f) {
          var k :| 0 <= k < |f.data| && p == KeyPath(bs, f.data[k], idx);
        }
        if |p| == |bs| {
          GroupPaths(bs, f.data, idx, p);
        }
      }
    }
  }
}
