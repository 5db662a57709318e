/**
 * np_to_dict: builds the block tree from the data rows of a 2-D string array,
 * row by row. At every level below the first, a row descends into the
 * existing child named by its key cell (all siblings are scanned) or appends
 * a new child. With a single-level structure the first level is never looked
 * up, so every row becomes a new root.
 */
module NpToDict {
  import opened Wrappers
  import opened Schema
  import opened Tree
  import opened IndexMap

  /** A value stored in a node: a text cell verbatim, or Python's float() of a cell. */
  datatype NpValue = Verbatim(text: string) | Float(cell: string)

  /** A data row of the array; the array's header row has the labels. */
  type Row = seq<string>

  /** How a column's cell is stored: text columns verbatim, every other type through float(). */
  function Stored(c: Column, cell: string): NpValue
  {
    if c.ctype == "text" then Verbatim(cell) else Float(cell)
  }

  function GroupValues(cols: seq<Column>, r: Row, idx: map<string, nat>): (vs: seq<NpValue>)
    requires forall k | 0 <= k < |cols| :: cols[k].name in idx && idx[cols[k].name] < |r|
    ensures |vs| == |cols|
    ensures forall k | 0 <= k < |cols| :: vs[k] == Stored(cols[k], r[idx[cols[k].name]])
  {
    seq(|cols|, k requires 0 <= k < |cols| => Stored(cols[k], r[idx[cols[k].name]]))
  }

  /**
   * __create_block: a childless node named by the row's key cell, with one
   * list per declared group, as long and in the same order as its columns.
   */
  function CreateBlock(b: BlockLevel, r: Row, idx: map<string, nat>): (n: Node<NpValue>)
    requires LevelReadable(b, idx, |r|)
    ensures n.name == r[idx[b.name]] && n.children == [] && LineShaped(b, n)
    ensures forall g, k | g in b.groups && 0 <= k < |b.groups[g]| ::
      n.values[g][k] == Stored(b.groups[g][k], r[idx[b.groups[g][k].name]])
  {
    Node(r[idx[b.name]], map g | g in b.groups :: GroupValues(b.groups[g], r, idx), [])
  }

  /** The row's key cell at a level. */
  function Key(bs: seq<BlockLevel>, level: nat, r: Row, idx: map<string, nat>): string
    requires level < |bs| && Readable(bs, idx, |r|)
  {
    r[idx[bs[level].name]]
  }

  /** The row's key cells, level after level: the path of its sample. */
  function KeyPath(bs: seq<BlockLevel>, r: Row, idx: map<string, nat>): (p: seq<string>)
    requires Readable(bs, idx, |r|)
    ensures |p| == |bs|
  {
    seq(|bs|, level requires 0 <= level < |bs| => Key(bs, level, r, idx))
  }

  /** The result of scanning all of ns for `key`: the last node so named, if any. */
  function LastNamed(ns: seq<Node<NpValue>>, key: string): (r: Option<nat>)
    ensures r.Some? ==>
      r.value < |ns| && ns[r.value].name == key && forall j | r.value < j < |ns| :: ns[j].name != key
    ensures r.None? ==> forall j | 0 <= j < |ns| :: ns[j].name != key
  {
    if ns == [] then None
    else if ns[|ns| - 1].name == key then Some(|ns| - 1)
    else LastNamed(ns[..|ns| - 1], key)
  }

  /** The scan loop over a list of blocks; a later match replaces an earlier one. */
  method ScanNamed(ns: seq<Node<NpValue>>, key: string) returns (found: Option<nat>)
    ensures found == LastNamed(ns, key)
  {
    found := None;
    for i := 0 to |ns|
      invariant found == LastNamed(ns[..i], key)
    {
      if ns[i].name == key {
        found := Some(i);
      }
      assert ns[..i + 1][..i] == ns[..i];
    }
    assert ns[..|ns|] == ns;
  }

  /**
   * Inserts the row's path below n, a node of level `level - 1`: from `level`
   * down to the sample level, descend into the child named by the row's key
   * or append a new block for it.
   */
  function Attach(bs: seq<BlockLevel>, level: nat, n: Node<NpValue>, r: Row, idx: map<string, nat>): Node<NpValue>
    requires 1 <= level <= |bs| && Readable(bs, idx, |r|)
    decreases |bs| - level
  {
    if level == |bs| then n
    else
      match LastNamed(n.children, Key(bs, level, r, idx))
      case Some(j) =>
        n.(children := n.children[j := Attach(bs, level + 1, n.children[j], r, idx)])
      case None =>
        n.(children := n.children + [Attach(bs, level + 1, CreateBlock(bs[level], r, idx), r, idx)])
  }

  /** One iteration of the row loop: find or create the root, then attach the rest of the path. */
  function InsertRow(bs: seq<BlockLevel>, ret: seq<Node<NpValue>>, r: Row, idx: map<string, nat>): seq<Node<NpValue>>
    requires |bs| > 0 && Readable(bs, idx, |r|)
  {
    var found := if |bs| > 1 then LastNamed(ret, Key(bs, 0, r, idx)) else None;
    match found
    case Some(i) => ret[i := Attach(bs, 1, ret[i], r, idx)]
    case None => ret + [Attach(bs, 1, CreateBlock(bs[0], r, idx), r, idx)]
  }

  predicate AllReadable(bs: seq<BlockLevel>, idx: map<string, nat>, rows: seq<Row>)
  {
    forall k | 0 <= k < |rows| :: Readable(bs, idx, |rows[k]|)
  }

  /** The tree built from the rows, inserted in order. */
  function Encode(bs: seq<BlockLevel>, rows: seq<Row>, idx: map<string, nat>): seq<Node<NpValue>>
    requires |bs| > 0 && AllReadable(bs, idx, rows)
  {
    if rows == [] then []
    else InsertRow(bs, Encode(bs, rows[..|rows| - 1], idx), rows[|rows| - 1], idx)
  }

  /** Encoding one more row inserts it into the tree of the rows before it. */
  lemma {:induction false} EncodeSnoc(bs: seq<BlockLevel>, rows: seq<Row>, k: nat, idx: map<string, nat>)
    requires |bs| > 0 && AllReadable(bs, idx, rows) && k < |rows|
    ensures AllReadable(bs, idx, rows[..k]) && AllReadable(bs, idx, rows[..k + 1])
    ensures Encode(bs, rows[..k + 1], idx) == InsertRow(bs, Encode(bs, rows[..k], idx), rows[k], idx)
  {
    assert rows[..k + 1][..k] == rows[..k];
  }

  /**
   * One pass of the loop of np_to_dict: the sample's top-level block is the
   * last one with its name, or a new block appended at the end; the rest of
   * its path is attached below it.
   */
  method AddSample(bs: seq<BlockLevel>, ret: seq<Node<NpValue>>, sample: Row, idx: map<string, nat>) returns (next: seq<Node<NpValue>>)
    requires |bs| > 0 && Readable(bs, idx, |sample|)
    ensures next == InsertRow(bs, ret, sample, idx)
  {
    next := ret;
    var parent: Option<nat> := None;
    if |bs| > 1 {
      parent := ScanNamed(next, Key(bs, 0, sample, idx));
    }
    if parent.None? {
      next := next + [CreateBlock(bs[0], sample, idx)];
      parent := Some(|next| - 1);
    }
    next := next[parent.value := Attach(bs, 1, next[parent.value], sample, idx)];
  }

  /**
   * np_to_dict: the block tree of the rows, a well-formed full-depth tree
   * holding every row's key path.
   */
  method NpToDict(bs: seq<BlockLevel>, samples: seq<Row>, idx: map<string, nat>) returns (ret: seq<Node<NpValue>>)
    requires |bs| > 0 && AllReadable(bs, idx, samples)
    ensures ret == Encode(bs, samples, idx)
    ensures Wf(bs, ret)
    ensures forall k | 0 <= k < |samples| :: HasPath(ret, KeyPath(bs, samples[k], idx))
    ensures |bs| == 1 ==> |ret| == |samples|
  {
    ret := [];
    var k := 0;
    while k < |samples|
      invariant 0 <= k <= |samples|
      invariant AllReadable(bs, idx, samples[..k])
      invariant ret == Encode(bs, samples[..k], idx)
    {
      EncodeSnoc(bs, samples, k, idx);
      ret := AddSample(bs, ret, samples[k], idx);
      k := k + 1;
    }
    assert samples[..k] == samples;
    EncodeWf(bs, samples, idx);
    if |bs| == 1 {
      EncodeSingleLevel(bs, samples, idx);
    }
  }

  // Properties of the encoding.

  /** Roots are distinct when looked up (more than one level); every node is shaped and has distinct siblings. */
  predicate Wf(bs: seq<BlockLevel>, ns: seq<Node<NpValue>>)
  {
    (|bs| > 1 ==> DistinctNames(ns)) &&
    forall k | 0 <= k < |ns| :: Shaped(bs, 0, ns[k]) && SiblingsDistinct(ns[k])
  }

  /**
   * Attaching a row below a shaped (or freshly created) node keeps it shaped
   * with distinct sibling names, leaves its own line alone and makes the
   * rest of the row's path present below it.
   */
  lemma {:induction false} AttachShaped(bs: seq<BlockLevel>, level: nat, n: Node<NpValue>, r: Row, idx: map<string, nat>)
    requires 1 <= level <= |bs| && Readable(bs, idx, |r|)
    requires LineShaped(bs[level - 1], n) && SiblingsDistinct(n)
    requires n.children == [] || Shaped(bs, level - 1, n)
    ensures Shaped(bs, level - 1, Attach(bs, level, n, r, idx))
    ensures SiblingsDistinct(Attach(bs, level, n, r, idx))
    ensures Attach(bs, level, n, r, idx).name == n.name
    ensures Attach(bs, level, n, r, idx).values == n.values
    ensures HasPath(Attach(bs, level, n, r, idx).children, KeyPath(bs, r, idx)[level..])
    decreases |bs| - level
  {
    if level < |bs| {
      var key := Key(bs, level, r, idx);
      var p := KeyPath(bs, r, idx)[level..];
      assert p[0] == key && p[1..] == KeyPath(bs, r, idx)[level + 1..];
      var m := Attach(bs, level, n, r, idx);
      match LastNamed(n.children, key)
      case Some(j) =>
        var c := n.children[j];
        AttachShaped(bs, level + 1, c, r, idx);
        ReplaceChild(bs, level - 1, n, j, Attach(bs, level + 1, c, r, idx));
        assert HasPath(m.children[j].children, p[1..]);
      case None =>
        var c := CreateBlock(bs[level], r, idx);
        AttachShaped(bs, level + 1, c, r, idx);
        AppendChild(bs, level - 1, n, Attach(bs, level + 1, c, r, idx));
        assert HasPath(m.children[|n.children|].children, p[1..]);
    }
  }

  /** Attaching never loses a path that was already present. */
  lemma {:induction false} AttachKeeps(bs: seq<BlockLevel>, level: nat, n: Node<NpValue>, r: Row, idx: map<string, nat>, p: seq<string>)
    requires 1 <= level <= |bs| && Readable(bs, idx, |r|)
    requires HasPath(n.children, p)
    ensures HasPath(Attach(bs, level, n, r, idx).children, p)
    decreases |bs| - level
  {
    if level < |bs| && p != [] {
      var m := Attach(bs, level, n, r, idx);
      var i :| 0 <= i < |n.children| && n.children[i].name == p[0] && HasPath(n.children[i].children, p[1..]);
      match LastNamed(n.children, Key(bs, level, r, idx))
      case Some(j) =>
        if i == j {
          AttachKeeps(bs, level + 1, n.children[j], r, idx, p[1..]);
        }
        assert m.children[i].name == p[0] && HasPath(m.children[i].children, p[1..]);
      case None =>
        assert m.children[i] == n.children[i];
    }
  }

  /** A row whose whole path is already present changes nothing below a node with distinct siblings. */
  lemma {:induction false} AttachIdle(bs: seq<BlockLevel>, level: nat, n: Node<NpValue>, r: Row, idx: map<string, nat>)
    requires 1 <= level <= |bs| && Readable(bs, idx, |r|)
    requires SiblingsDistinct(n) && HasPath(n.children, KeyPath(bs, r, idx)[level..])
    ensures Attach(bs, level, n, r, idx) == n
    decreases |bs| - level
  {
    if level < |bs| {
      var p := KeyPath(bs, r, idx)[level..];
      assert p[0] == Key(bs, level, r, idx) && p[1..] == KeyPath(bs, r, idx)[level + 1..];
      var i :| 0 <= i < |n.children| && n.children[i].name == p[0] && HasPath(n.children[i].children, p[1..]);
      var j := LastNamed(n.children, p[0]).value;
      assert i == j;
      AttachIdle(bs, level + 1, n.children[j], r, idx);
      assert n.children[j := n.children[j]] == n.children;
    }
  }

  lemma {:induction false} ReplaceRoot(bs: seq<BlockLevel>, ret: seq<Node<NpValue>>, i: nat, c: Node<NpValue>)
    requires Wf(bs, ret) && i < |ret|
    requires Shaped(bs, 0, c) && SiblingsDistinct(c) && c.name == ret[i].name
    ensures Wf(bs, ret[i := c])
  {
    var out := ret[i := c];
    assert forall k | 0 <= k < |out| :: out[k].name == ret[k].name;
    assert forall k | 0 <= k < |out| && k != i :: out[k] == ret[k];
  }

  lemma {:induction false} AppendRoot(bs: seq<BlockLevel>, ret: seq<Node<NpValue>>, c: Node<NpValue>)
    requires Wf(bs, ret) && Shaped(bs, 0, c) && SiblingsDistinct(c)
    requires |bs| > 1 ==> forall k | 0 <= k < |ret| :: ret[k].name != c.name
    ensures Wf(bs, ret + [c])
  {
    var out := ret + [c];
    assert forall k | 0 <= k < |ret| :: out[k] == ret[k];
    assert out[|ret|] == c;
  }

  /** One row keeps the forest well formed and adds the row's path. */
  lemma {:induction false} InsertRowWf(bs: seq<BlockLevel>, ret: seq<Node<NpValue>>, r: Row, idx: map<string, nat>)
    requires |bs| > 0 && Readable(bs, idx, |r|) && Wf(bs, ret)
    ensures Wf(bs, InsertRow(bs, ret, r, idx))
    ensures HasPath(InsertRow(bs, ret, r, idx), KeyPath(bs, r, idx))
  {
    var path := KeyPath(bs, r, idx);
    assert path[1..] == KeyPath(bs, r, idx)[1..];
    var out := InsertRow(bs, ret, r, idx);
    var found := if |bs| > 1 then LastNamed(ret, Key(bs, 0, r, idx)) else None;
    match found
    case Some(i) =>
      AttachShaped(bs, 1, ret[i], r, idx);
      ReplaceRoot(bs, ret, i, Attach(bs, 1, ret[i], r, idx));
      assert out[i].name == path[0] && HasPath(out[i].children, path[1..]);
    case None =>
      var c := CreateBlock(bs[0], r, idx);
      AttachShaped(bs, 1, c, r, idx);
      AppendRoot(bs, ret, Attach(bs, 1, c, r, idx));
      assert out[|ret|].name == path[0] && HasPath(out[|ret|].children, path[1..]);
  }

  /** One row keeps every path that was already present. */
  lemma {:induction false} InsertRowKeeps(bs: seq<BlockLevel>, ret: seq<Node<NpValue>>, r: Row, idx: map<string, nat>, p: seq<string>)
    requires |bs| > 0 && Readable(bs, idx, |r|) && HasPath(ret, p)
    ensures HasPath(InsertRow(bs, ret, r, idx), p)
  {
    if p != [] {
      var out := InsertRow(bs, ret, r, idx);
      var t :| 0 <= t < |ret| && ret[t].name == p[0] && HasPath(ret[t].children, p[1..]);
      var found := if |bs| > 1 then LastNamed(ret, Key(bs, 0, r, idx)) else None;
      match found
      case Some(i) =>
        if t == i {
          AttachKeeps(bs, 1, ret[i], r, idx, p[1..]);
        }
        assert out[t].name == p[0] && HasPath(out[t].children, p[1..]);
      case None =>
        assert out[t] == ret[t];
    }
  }

  /** The encoding of any rows is well formed and holds every row's key path. */
  lemma {:induction false} EncodeWf(bs: seq<BlockLevel>, rows: seq<Row>, idx: map<string, nat>)
    requires |bs| > 0 && AllReadable(bs, idx, rows)
    ensures Wf(bs, Encode(bs, rows, idx))
    ensures forall k | 0 <= k < |rows| :: HasPath(Encode(bs, rows, idx), KeyPath(bs, rows[k], idx))
  {
    if rows != [] {
      var init := rows[..|rows| - 1];
      assert AllReadable(bs, idx, init) by {
        assert forall k | 0 <= k < |init| :: init[k] == rows[k];
      }
      EncodeWf(bs, init, idx);
      InsertRowWf(bs, Encode(bs, init, idx), rows[|rows| - 1], idx);
      forall k | 0 <= k < |rows| ensures HasPath(Encode(bs, rows, idx), KeyPath(bs, rows[k], idx)) {
        if k < |rows| - 1 {
          assert init[k] == rows[k];
          InsertRowKeeps(bs, Encode(bs, init, idx), rows[|rows| - 1], idx, KeyPath(bs, rows[k], idx));
        }
      }
    }
  }

  /** With more than one level, a row whose path is already present leaves the tree as it was. */
  lemma {:induction false} DuplicateRowIgnored(bs: seq<BlockLevel>, ret: seq<Node<NpValue>>, r: Row, idx: map<string, nat>)
    requires |bs| > 1 && Readable(bs, idx, |r|) && Wf(bs, ret)
    requires HasPath(ret, KeyPath(bs, r, idx))
    ensures InsertRow(bs, ret, r, idx) == ret
  {
    var path := KeyPath(bs, r, idx);
    var t :| 0 <= t < |ret| && ret[t].name == path[0] && HasPath(ret[t].children, path[1..]);
    var i := LastNamed(ret, path[0]).value;
    assert t == i;
    assert path[1..] == KeyPath(bs, r, idx)[1..];
    AttachIdle(bs, 1, ret[i], r, idx);
    assert ret[i := ret[i]] == ret;
  }

  /** With a single level no root is looked up: each row, duplicates included, becomes its own root. */
  lemma {:induction false} EncodeSingleLevel(bs: seq<BlockLevel>, rows: seq<Row>, idx: map<string, nat>)
    requires |bs| == 1 && AllReadable(bs, idx, rows)
    ensures |Encode(bs, rows, idx)| == |rows|
    ensures forall k | 0 <= k < |rows| :: Encode(bs, rows, idx)[k] == CreateBlock(bs[0], rows[k], idx)
  {
    if rows != [] {
      var init := rows[..|rows| - 1];
      assert AllReadable(bs, idx, init) by {
        assert forall k | 0 <= k < |init| :: init[k] == rows[k];
      }
      EncodeSingleLevel(bs, init, idx);
      forall k | 0 <= k < |rows| ensures Encode(bs, rows, idx)[k] == CreateBlock(bs[0], rows[k], idx) {
        if k < |rows| - 1 {
          assert init[k] == rows[k];
        }
      }
    }
  }
}
