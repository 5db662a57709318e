/**
 * A tag of a project: a dict from sample hashes to tag values, loaded from
 * the backend once and then kept; the histogram of its values; and the
 * samples carrying one value, pulled as a table.
 */
module Tag {
  import opened Wrappers
  import opened Values
  import opened Schema
  import opened Tree
  import opened TreeToArray
  import Project

  datatype TagError =
    | NoProject    // the project document is gone
    | LoadFailed   // the tag document is missing or carries no tags
    | Malformed    // a document or a value of the wrong shape
    | Unhashable   // a tag value that cannot key a Python dict
    | Stack        // rows of unequal width, which np.vstack refuses

  /** Python's `sub in s` on strings: sub occurs somewhere in s. */
  predicate Substring(sub: string, s: string)
    decreases |s|
  {
    sub <= s || (s != [] && Substring(sub, s[1..]))
  }

  /**
   * The tags after load_tags: the ones already loaded, or else the "tags"
   * entry of the tag document. A missing document, a missing entry or a
   * null entry is the ValueError of the source; a document that is not a
   * dict fails inside the membership test or the lookup instead, unless
   * the test already answers no.
   */
  function Loaded(current: Value, doc: Value): (r: Result<Value, TagError>)
    ensures current != Null ==> r == Ok(current)
    ensures r.Ok? ==> r.value != Null
    ensures current == Null && r.Ok? ==> doc.Object? && "tags" in doc.fields && r.value == doc.fields["tags"]
    ensures current == Null && doc.Object? ==> (r == Err(LoadFailed) <==> "tags" !in doc.fields || doc.fields["tags"] == Null)
  {
    if current != Null then Ok(current)
    else match doc
      case Null => Err(LoadFailed)
      case Object(fields) => if "tags" !in fields || fields["tags"] == Null then Err(LoadFailed) else Ok(fields["tags"])
      case Str(s) => if Substring("tags", s) then Err(Malformed) else Err(LoadFailed)
      case List(items) => if Str("tags") in items then Err(Malformed) else Err(LoadFailed)
      case _ => Err(Malformed)
  }

  /** Tags once loaded stay loaded: a later load, whatever the backend answers then, changes nothing. */
  lemma {:induction false} LoadOnce(current: Value, doc: Value, later: Value)
    requires Loaded(current, doc).Ok?
    ensures Loaded(Loaded(current, doc).value, later) == Loaded(current, doc)
  {
  }

  /** A value can key a Python dict unless it is a list or a dict. */
  predicate Hashable(v: Value)
  {
    !v.List? && !v.Object?
  }

  /** The key a value stands for in a Python dict: True is the key 1 and False the key 0. */
  function HashKey(v: Value): (k: Value)
    ensures !k.Bool?
    ensures !v.Bool? ==> k == v
  {
    match v
    case Bool(b) => if b then Num(1) else Num(0)
    case _ => v
  }

  /** The keys the values of the hashes in `within` stand for. */
  function Occurring(t: map<string, Value>, within: set<string>): set<Value>
  {
    set h | h in within && h in t :: HashKey(t[h])
  }

  /** The hashes in `within` whose value stands for k. */
  function Carriers(t: map<string, Value>, within: set<string>, k: Value): set<string>
  {
    set h | h in within && h in t && HashKey(t[h]) == k
  }

  /** The histogram of the values of the hashes in `within`: each key maps to the number of hashes carrying it. */
  function Tally(t: map<string, Value>, within: set<string>): map<Value, nat>
  {
    map k | k in Occurring(t, within) :: |Carriers(t, within, k)|
  }

  /** The sum of a histogram's counts. */
  ghost function Total(m: map<Value, nat>): nat
    decreases m.Keys
  {
    if m == map[] then 0
    else
      var k :| k in m;
      m[k] + Total(m - {k})
  }

  lemma {:induction false} TotalRemove(m: map<Value, nat>, k: Value)
    requires k in m
    ensures Total(m) == m[k] + Total(m - {k})
    decreases m.Keys
  {
    var j :| j in m && Total(m) == m[j] + Total(m - {j});
    if j != k {
      TotalRemove(m - {j}, k);
      TotalRemove(m - {k}, j);
      assert (m - {j}) - {k} == (m - {k}) - {j};
    }
  }

  /** Setting one count replaces that key's share of the sum. */
  lemma {:induction false} TotalUpdate(m: map<Value, nat>, k: Value, c: nat)
    ensures Total(m[k := c]) == Total(m - {k}) + c
  {
    TotalRemove(m[k := c], k);
    assert m[k := c] - {k} == m - {k};
  }

  /**
   * Counting one more hash raises the count of its value's key by one, or
   * adds that key with count 1; nothing else changes.
   */
  lemma {:induction false} TallyStep(t: map<string, Value>, w: set<string>, h: string)
    requires h in t && h !in w
    ensures var k := HashKey(t[h]);
      Tally(t, w + {h}) == if k in Tally(t, w) then Tally(t, w)[k := Tally(t, w)[k] + 1] else Tally(t, w)[k := 1]
  {
    var k := HashKey(t[h]);
    var before, after := Tally(t, w), Tally(t, w + {h});
    var expected := if k in before then before[k := before[k] + 1] else before[k := 1];
    OccurringAdd(t, w, h);
    assert after.Keys == expected.Keys;
    forall x | x in after ensures after[x] == expected[x] {
      TallyAt(t, w, h, x);
    }
    assert after == expected;
  }

  /** One key's count after counting one more hash. */
  lemma {:induction false} TallyAt(t: map<string, Value>, w: set<string>, h: string, x: Value)
    requires h in t && h !in w && x in Tally(t, w + {h})
    ensures x != HashKey(t[h]) ==> x in Tally(t, w) && Tally(t, w + {h})[x] == Tally(t, w)[x]
    ensures x == HashKey(t[h]) ==> Tally(t, w + {h})[x] == if x in Tally(t, w) then Tally(t, w)[x] + 1 else 1
  {
    OccurringAdd(t, w, h);
    CarriersAdd(t, w, h, x);
    if x !in Tally(t, w) {
      CarriersNone(t, w, x);
    }
  }

  lemma {:induction false} TallyEmpty(t: map<string, Value>)
    ensures Tally(t, {}) == map[]
  {
    assert Occurring(t, {}) == {};
  }

  /** TallyStep for a histogram held in a variable. */
  lemma {:induction false} TallyCount(t: map<string, Value>, w: set<string>, h: string, values: map<Value, nat>)
    requires h in t && h !in w && values == Tally(t, w)
    ensures var k := HashKey(t[h]);
      Tally(t, w + {h}) == if k in values then values[k := values[k] + 1] else values[k := 1]
  {
    TallyStep(t, w, h);
  }

  lemma {:induction false} CarriersNone(t: map<string, Value>, w: set<string>, x: Value)
    requires x !in Occurring(t, w)
    ensures Carriers(t, w, x) == {}
  {
  }

  lemma {:induction false} OccurringAdd(t: map<string, Value>, w: set<string>, h: string)
    requires h in t
    ensures Occurring(t, w + {h}) == Occurring(t, w) + {HashKey(t[h])}
  {
  }

  lemma {:induction false} CarriersAdd(t: map<string, Value>, w: set<string>, h: string, x: Value)
    requires h in t && h !in w
    ensures x == HashKey(t[h]) ==> Carriers(t, w + {h}, x) == Carriers(t, w, x) + {h} && h !in Carriers(t, w, x)
    ensures x != HashKey(t[h]) ==> Carriers(t, w + {h}, x) == Carriers(t, w, x)
  {
  }

  /** The counts of a histogram sum to the number of hashes counted. */
  lemma {:induction false} TallyTotal(t: map<string, Value>, w: set<string>)
    requires w <= t.Keys
    ensures Total(Tally(t, w)) == |w|
    decreases w
  {
    if w == {} {
      assert Tally(t, w) == map[];
    } else {
      var h :| h in w;
      var rest := w - {h};
      assert w == rest + {h};
      TallyTotal(t, rest);
      TallyStep(t, rest, h);
      var m := Tally(t, rest);
      var k := HashKey(t[h]);
      if k in m {
        TotalUpdate(m, k, m[k] + 1);
        TotalRemove(m, k);
      } else {
        TotalUpdate(m, k, 1);
        assert m - {k} == m;
      }
    }
  }

  /** Every key of a histogram was counted at least once. */
  lemma {:induction false} TallyPositive(t: map<string, Value>, w: set<string>, k: Value)
    requires k in Tally(t, w)
    ensures Tally(t, w)[k] >= 1
  {
    var h :| h in w && h in t && HashKey(t[h]) == k;
    assert h in Carriers(t, w, k);
  }

  /** The keys of a histogram are exactly the values carried by the hashes counted. */
  lemma {:induction false} TallyKeys(t: map<string, Value>, k: Value)
    ensures k in Tally(t, t.Keys) <==> exists h | h in t :: HashKey(t[h]) == k
  {
  }

  /**
   * The loop of tag_number: each hash's value is looked up in the counts,
   * raised by one when present and set to 1 otherwise. A list or dict value
   * cannot key the counts.
   */
  method CountTags(t: map<string, Value>) returns (r: Result<map<Value, nat>, TagError>)
    ensures r.Err? <==> exists h | h in t :: !Hashable(t[h])
    ensures r.Err? ==> r.error == Unhashable
    ensures r.Ok? ==> r.value == Tally(t, t.Keys)
    ensures r.Ok? ==> Total(r.value) == |t|
  {
    var values: map<Value, nat> := map[];
    var rest := t.Keys;
    ghost var done: set<string> := {};
    TallyEmpty(t);
    while rest != {}
      invariant done <= t.Keys && rest == t.Keys - done
      invariant forall h | h in done :: Hashable(t[h])
      invariant values == Tally(t, done)
      decreases rest
    {
      var h :| h in rest;
      var v := t[h];
      if !Hashable(v) {
        return Err(Unhashable);
      }
      var k := HashKey(v);
      TallyCount(t, done, h, values);
      if k in values {
        values := values[k := values[k] + 1];
      } else {
        values := values[k := 1];
      }
      done := done + {h};
      rest := rest - {h};
    }
    assert done == t.Keys;
    TallyTotal(t, t.Keys);
    return Ok(values);
  }

  /** The block levels a project document describes. */
  function InfoLevels(info: Dict): Option<seq<BlockLevel>>
  {
    if "blockLevelInfo" in info then Project.Levels(info["blockLevelInfo"]) else None
  }

  /** Every top-level node of the tree can be read against the levels. */
  predicate Readable(bs: seq<BlockLevel>, tree: seq<Node<Value>>)
  {
    forall k | 0 <= k < |tree| :: Conforms(bs, 0, tree[k])
  }

  /**
   * What get_numpy answers for a project document and the samples of a tag
   * value: the header row alone when the tree gives no rows, else the header
   * stacked on the rows.
   */
  function Pulled(info: Option<Dict>, tree: seq<Node<Value>>): (r: Result<Project.Table<Value>, TagError>)
    ensures r.Ok? ==> |r.value| >= 1
  {
    if info.None? then Err(NoProject)
    else match InfoLevels(info.value)
      case None => Err(Malformed)
      case Some(bs) =>
        if !Readable(bs, tree) then Err(Malformed) else Tabled(bs, tree)
  }

  /** The header row stacked on the rows of a readable tree, when np.vstack accepts them. */
  function Tabled(bs: seq<BlockLevel>, tree: seq<Node<Value>>): (r: Result<Project.Table<Value>, TagError>)
    requires Readable(bs, tree)
    ensures r.Ok? ==> |r.value| >= 1 && r.value[0] == Project.HeaderFields(Header(bs))
  {
    match Project.NumpyTable(Header(bs), ForestData(bs, 0, tree))
    case Ok(table) => Ok(table)
    case Err(_) => Err(Stack)
  }

  /** The end of get_numpy: build the header row, decode the tree, and stack the two unless there are no rows. */
  method Tabulate(bs: seq<BlockLevel>, tree: seq<Node<Value>>) returns (r: Result<Project.Table<Value>, TagError>)
    requires Readable(bs, tree)
    ensures r == Tabled(bs, tree)
  {
    var columns := Project.HeaderRow(bs);
    var data := TreeToArray.TreeToArray(bs, tree);
    if |data| == 0 {
      return Ok([Project.HeaderFields(columns)]);
    }
    var stacked := Project.VStack(columns, data);
    if stacked.Err? {
      return Err(Stack);
    }
    return Ok(stacked.value);
  }

  /** A tag value no sample carries gives the header row alone. */
  lemma {:induction false} PulledEmpty(info: Dict, tree: seq<Node<Value>>)
    requires InfoLevels(info).Some? && tree == []
    ensures Pulled(Some(info), tree) == Ok([Project.HeaderFields(Header(InfoLevels(info).value))])
  {
    var bs := InfoLevels(info).value;
    assert ForestData(bs, 0, tree) == [];
  }

  /**
   * Samples whose every branch runs down to the last level give the header
   * followed by one row per sample, each as wide as the header.
   */
  lemma {:induction false} TabledShaped(bs: seq<BlockLevel>, tree: seq<Node<Value>>)
    requires ShapedForest(bs, 0, tree)
    ensures Readable(bs, tree)
    ensures Tabled(bs, tree) == Ok([Project.HeaderFields(Header(bs))] + ForestData(bs, 0, tree))
    ensures forall i | 0 <= i < |Tabled(bs, tree).value| :: |Tabled(bs, tree).value[i]| == |Header(bs)|
  {
    ForestRowWidth(bs, 0, tree);
    assert bs[0..] == bs;
    HeaderWidth(bs);
    var data := ForestData(bs, 0, tree);
    forall k | 0 <= k < |data| ensures |data[k]| == |Header(bs)| {
      assert data[k] in data;
    }
    Project.NumpyTableRows(Header(bs), data);
    var table := [Project.HeaderFields<Value>(Header(bs))] + data;
    forall i | 0 <= i < |table| ensures |table[i]| == |Header(bs)| {
      if i > 0 {
        assert table[i] == data[i - 1];
      }
    }
  }

  /** get_numpy on well-shaped samples: the header row, then the decoded rows. */
  lemma {:induction false} PulledShaped(info: Dict, tree: seq<Node<Value>>)
    requires InfoLevels(info).Some? && ShapedForest(InfoLevels(info).value, 0, tree)
    ensures var bs := InfoLevels(info).value;
      Readable(bs, tree) && Pulled(Some(info), tree) == Ok([Project.HeaderFields(Header(bs))] + ForestData(bs, 0, tree))
  {
    TabledShaped(InfoLevels(info).value, tree);
  }

  class Tag {
    const project: Project.Project
    const id: Value
    const name: Value
    /** The loaded tags; Null until load_tags succeeds. */
    var tags: Value

    /** Only the overview is known at first: no tags are loaded. */
    constructor(project: Project.Project, id: Value, name: Value)
      ensures this.project == project && this.id == id && this.name == name
      ensures tags == Null
    {
      this.project := project;
      this.id := id;
      this.name := name;
      tags := Null;
    }

    /** load_tags: fetch the tag document only while no tags are loaded. */
    method LoadTags() returns (r: Outcome<TagError>)
      modifies this
      ensures var l := Loaded(old(tags), project.server.TagDocument(id));
        (r.Pass? <==> l.Ok?) && (l.Err? ==> r == Fail(l.error))
      ensures var l := Loaded(old(tags), project.server.TagDocument(id));
        tags == if l.Ok? then l.value else old(tags)
    {
      if tags == Null {
        var doc := project.server.TagDocument(id);
        var loaded := Loaded(tags, doc);
        if loaded.Err? {
          return Fail(loaded.error);
        }
        tags := loaded.value;
      }
      return Pass;
    }

    /** tag_number: load the tags, then count how many hashes carry each value. */
    method TagNumber() returns (r: Result<map<Value, nat>, TagError>)
      modifies this
      ensures var l := Loaded(old(tags), project.server.TagDocument(id));
        tags == (if l.Ok? then l.value else old(tags)) && (l.Err? ==> r == Err(l.error))
      ensures tags != Null && !tags.Object? ==> r == Err(Malformed)
      ensures tags.Object? ==> (r.Err? <==> exists h | h in tags.fields :: !Hashable(tags.fields[h]))
      ensures r.Ok? ==> tags.Object? && r.value == Tally(tags.fields, tags.fields.Keys)
      ensures r.Ok? ==> Total(r.value) == |tags.fields|
    {
      var loaded := LoadTags();
      if loaded.Fail? {
        return Err(loaded.error);
      }
      if !tags.Object? {
        return Err(Malformed);
      }
      r := CountTags(tags.fields);
    }

    /**
     * get_numpy: the samples carrying a tag value, as the header row
     * stacked on the decoded rows, or the header alone when there are none.
     */
    method GetNumpy(tagValue: Value) returns (r: Result<Project.Table<Value>, TagError>)
      modifies project
      ensures project.server.project.None? ==> project.State() == old(project.State())
      ensures project.server.project.Some? ==>
        project.State() == Project.Refreshed(project.server.project.value, old(project.State()))
      ensures r == Pulled(project.server.project, project.server.TaggedSamples(id, tagValue))
    {
      var tree := project.server.TaggedSamples(id, tagValue);
      var info := project.Refresh();
      if info.Err? {
        return Err(NoProject);
      }
      if "blockLevelInfo" !in info.value {
        return Err(Malformed);
      }
      var typed := Project.Levels(info.value["blockLevelInfo"]);
      if typed.None? {
        return Err(Malformed);
      }
      var bs := typed.value;
      if !(forall k | 0 <= k < |tree| :: Conforms(bs, 0, tree[k])) {
        return Err(Malformed);
      }
      r := Tabulate(bs, tree);
    }
  }
}
