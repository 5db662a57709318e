/**
 * The argument checks of the project class: the block structure given to
 * set_blockstructure and the expected results given to
 * set_expected_results, and the canonical form the expected results are
 * stored in. Each check reports the first violation in the order the source
 * visits the argument.
 */
module ProjectChecks {
  import opened Wrappers
  import opened Values
  import opened Schema

  // Block structure.

  /** A violation of the block-structure rules. */
  datatype SchemaError =
    | NoBlock
    | BlockWithoutName(position: nat)
    | ColumnWithoutName(group: Group, block: Value)
    | ColumnWithoutType(group: Group, block: Value)
    | UnknownColumnType(column: Value, block: Value)
    | GroupNotString(column: Value, block: Value)
    | UnreadableGroup(group: Group, block: Value)   // a TypeError: a group or column the loop cannot iterate or index

  /** The column types a block structure may declare. */
  predicate ColumnType(v: Value)
  {
    v == Str("text") || v == Str("number") || v == Str("boolean")
  }

  /**
   * The checks on one column of a group, in order: a name, a type, a known
   * type, a string group when one is given. A column that is not a dict is
   * unreadable.
   */
  function ColumnError(g: Group, col: Value, block: Value): Option<SchemaError>
  {
    if !col.Object? then Some(UnreadableGroup(g, block))
    else if "name" !in col.fields then Some(ColumnWithoutName(g, block))
    else if "type" !in col.fields then Some(ColumnWithoutType(g, block))
    else if !ColumnType(col.fields["type"]) then Some(UnknownColumnType(col.fields["name"], block))
    else if "group" in col.fields && !col.fields["group"].Str? then Some(GroupNotString(col.fields["name"], block))
    else None
  }

  /** The first error among the columns from position `from` on. */
  function ColumnsError(g: Group, cols: seq<Value>, block: Value, from: nat): Option<SchemaError>
    requires from <= |cols|
    decreases |cols| - from
  {
    if from == |cols| then None
    else if ColumnError(g, cols[from], block).Some? then ColumnError(g, cols[from], block)
    else ColumnsError(g, cols, block, from + 1)
  }

  /**
   * The checks on a group of a block, as the column loop iterates over it:
   * a list is checked column by column; an empty string or dict yields no
   * column; the first element of a non-empty string is a one-character
   * string, which cannot contain "name"; a number, boolean or None cannot be
   * iterated, and the keys of a non-empty dict cannot be indexed by "type".
   */
  function GroupError(d: Dict, g: Group): Option<SchemaError>
    requires "name" in d
  {
    if GroupKey(g) !in d then None
    else match d[GroupKey(g)]
      case List(items) => ColumnsError(g, items, d["name"], 0)
      case Str(s) => if s == "" then None else Some(ColumnWithoutName(g, d["name"]))
      case Object(f) => if f == map[] then None else Some(UnreadableGroup(g, d["name"]))
      case _ => Some(UnreadableGroup(g, d["name"]))
  }

  /** The first error among the groups Groups[from..]. */
  function GroupsError(d: Dict, from: nat): Option<SchemaError>
    requires "name" in d && from <= |Groups|
    decreases |Groups| - from
  {
    if from == |Groups| then None
    else if GroupError(d, Groups[from]).Some? then GroupError(d, Groups[from])
    else GroupsError(d, from + 1)
  }

  /** The checks on the block at (0-based) position i. */
  function BlockError(d: Dict, i: nat): Option<SchemaError>
  {
    if "name" !in d then Some(BlockWithoutName(i + 1)) else GroupsError(d, 0)
  }

  /** The first error among the blocks from position `from` on. */
  function LevelsError(ds: seq<Dict>, from: nat): Option<SchemaError>
    requires from <= |ds|
    decreases |ds| - from
  {
    if from == |ds| then None
    else if BlockError(ds[from], from).Some? then BlockError(ds[from], from)
    else LevelsError(ds, from + 1)
  }

  /** The checks set_blockstructure makes on its argument, after the already-created check. */
  function StructureError(ds: seq<Dict>): Option<SchemaError>
  {
    if |ds| == 0 then Some(NoBlock) else LevelsError(ds, 0)
  }

  /** A valid column: a dict with a name and a known type, and a string group if any. */
  predicate ValidColumn(col: Value)
  {
    col.Object? && "name" in col.fields && "type" in col.fields && ColumnType(col.fields["type"]) &&
    ("group" in col.fields ==> col.fields["group"].Str?)
  }

  /** A valid group: a list of valid columns, or an empty string or dict, which hold no column. */
  predicate ValidGroup(v: Value)
  {
    EmptyIterable(v) || (v.List? && forall k | 0 <= k < |v.items| :: ValidColumn(v.items[k]))
  }

  /** A valid block: a name, and every group it has is valid. */
  predicate ValidBlock(d: Dict)
  {
    "name" in d && forall g | GroupKey(g) in d :: ValidGroup(d[GroupKey(g)])
  }

  /** A valid block structure: at least one block, every block valid. */
  predicate ValidStructure(ds: seq<Dict>)
  {
    |ds| > 0 && forall i | 0 <= i < |ds| :: ValidBlock(ds[i])
  }

  lemma {:induction false} ColumnsErrorNone(g: Group, cols: seq<Value>, block: Value, from: nat)
    requires from <= |cols|
    ensures ColumnsError(g, cols, block, from).None? <==> forall k | from <= k < |cols| :: ValidColumn(cols[k])
    decreases |cols| - from
  {
    if from < |cols| {
      ColumnsErrorNone(g, cols, block, from + 1);
    }
  }

  lemma {:induction false} GroupsErrorNone(d: Dict, from: nat)
    requires "name" in d && from <= |Groups|
    ensures GroupsError(d, from).None? <==>
      forall j | from <= j < |Groups| && GroupKey(Groups[j]) in d :: ValidGroup(d[GroupKey(Groups[j])])
    decreases |Groups| - from
  {
    if from < |Groups| {
      GroupsErrorNone(d, from + 1);
      var g := Groups[from];
      if GroupKey(g) in d && d[GroupKey(g)].List? {
        ColumnsErrorNone(g, d[GroupKey(g)].items, d["name"], 0);
      }
    }
  }

  lemma {:induction false} BlockErrorNone(d: Dict, i: nat)
    ensures BlockError(d, i).None? <==> ValidBlock(d)
  {
    if "name" in d {
      GroupsErrorNone(d, 0);
      forall g | GroupKey(g) in d
        ensures exists j | 0 <= j < |Groups| :: Groups[j] == g
      {
        assert g == Groups[0] || g == Groups[1] || g == Groups[2] || g == Groups[3];
      }
    }
  }

  lemma {:induction false} LevelsErrorNone(ds: seq<Dict>, from: nat)
    requires from <= |ds|
    ensures LevelsError(ds, from).None? <==> forall i | from <= i < |ds| :: ValidBlock(ds[i])
    decreases |ds| - from
  {
    if from < |ds| {
      BlockErrorNone(ds[from], from);
      LevelsErrorNone(ds, from + 1);
    }
  }

  /** The checks pass exactly on valid block structures. */
  lemma {:induction false} StructureErrorIff(ds: seq<Dict>)
    ensures StructureError(ds).None? <==> ValidStructure(ds)
  {
    if |ds| > 0 {
      LevelsErrorNone(ds, 0);
    }
  }

  /** The error reported is the one of the first invalid block; the blocks before it are valid. */
  lemma {:induction false} StructureErrorFirst(ds: seq<Dict>, from: nat)
    requires from <= |ds| && LevelsError(ds, from).Some?
    ensures exists i | from <= i < |ds| ::
      (forall j | from <= j < i :: ValidBlock(ds[j])) && BlockError(ds[i], i) == LevelsError(ds, from)
    decreases |ds| - from
  {
    BlockErrorNone(ds[from], from);
    if BlockError(ds[from], from).None? {
      StructureErrorFirst(ds, from + 1);
      var i :| from + 1 <= i < |ds| &&
        (forall j | from + 1 <= j < i :: ValidBlock(ds[j])) && BlockError(ds[i], i) == LevelsError(ds, from + 1);
      assert (forall j | from <= j < i :: ValidBlock(ds[j])) && BlockError(ds[i], i) == LevelsError(ds, from);
    } else {
      assert BlockError(ds[from], from) == LevelsError(ds, from);
    }
  }

  /** A block key other than "name" and the four groups is ignored by the checks (it only warns). */
  lemma {:induction false} UnknownKeyIgnored(ds: seq<Dict>, i: nat, key: string, v: Value)
    requires i < |ds| && key != "name" && forall g :: key != GroupKey(g)
    ensures StructureError(ds[i := ds[i][key := v]]) == StructureError(ds)
  {
    var ds' := ds[i := ds[i][key := v]];
    assert BlockError(ds'[i], i) == BlockError(ds[i], i) by {
      if "name" in ds[i] {
        GroupsUnchanged(ds[i], key, v, 0);
      }
    }
    if |ds| > 0 {
      LevelsUnchanged(ds, ds', i, 0);
    }
  }

  lemma {:induction false} GroupsUnchanged(d: Dict, key: string, v: Value, from: nat)
    requires "name" in d && key != "name" && from <= |Groups| && forall g :: key != GroupKey(g)
    ensures GroupsError(d[key := v], from) == GroupsError(d, from)
    decreases |Groups| - from
  {
    if from < |Groups| {
      assert GroupError(d[key := v], Groups[from]) == GroupError(d, Groups[from]);
      GroupsUnchanged(d, key, v, from + 1);
    }
  }

  lemma {:induction false} LevelsUnchanged(ds: seq<Dict>, ds': seq<Dict>, i: nat, from: nat)
    requires |ds'| == |ds| && i < |ds| && from <= |ds|
    requires forall j | 0 <= j < |ds| && j != i :: ds'[j] == ds[j]
    requires BlockError(ds'[i], i) == BlockError(ds[i], i)
    ensures LevelsError(ds', from) == LevelsError(ds, from)
    decreases |ds| - from
  {
    if from < |ds| {
      LevelsUnchanged(ds, ds', i, from + 1);
    }
  }

  /** A list of dicts as a JSON list: a block structure or canonical expected results as stored. */
  function ListOfDicts(ds: seq<Dict>): (v: Value)
    ensures v.List? && |v.items| == |ds|
    ensures forall i | 0 <= i < |ds| :: v.items[i] == Object(ds[i])
  {
    List(seq(|ds|, i requires 0 <= i < |ds| => Object(ds[i])))
  }

  // Expected results.

  /** A violation of the expected-results rules. */
  datatype ResultsError =
    | AlreadySet
    | NotAList
    | NoResult
    | NotADict
    | WithoutName
    | WithoutType
    | DuplicateName
    | ResultGroupNotString

  /** An earlier entry of the list carries the same name as entry i. */
  predicate NameTaken(items: seq<Value>, i: nat)
    requires i < |items| && items[i].Object? && "name" in items[i].fields
  {
    exists j | 0 <= j < i :: items[j].Object? && "name" in items[j].fields &&
      items[j].fields["name"] == items[i].fields["name"]
  }

  /** The checks on entry i, in order: a dict, a name, a type, a new name, a string group if any. */
  function ItemError(items: seq<Value>, i: nat): Option<ResultsError>
    requires i < |items|
  {
    if !items[i].Object? then Some(NotADict)
    else if "name" !in items[i].fields then Some(WithoutName)
    else if "type" !in items[i].fields then Some(WithoutType)
    else if NameTaken(items, i) then Some(DuplicateName)
    else if "group" in items[i].fields && !items[i].fields["group"].Str? then Some(ResultGroupNotString)
    else None
  }

  function ItemsError(items: seq<Value>, from: nat): Option<ResultsError>
    requires from <= |items|
    decreases |items| - from
  {
    if from == |items| then None
    else if ItemError(items, from).Some? then ItemError(items, from)
    else ItemsError(items, from + 1)
  }

  /** The checks set_expected_results makes on its argument, after the already-set check. */
  function ExpectedError(v: Value): Option<ResultsError>
  {
    if !v.List? then Some(NotAList)
    else if |v.items| == 0 then Some(NoResult)
    else ItemsError(v.items, 0)
  }

  /** Valid expected results: a non-empty list of dicts with a name and a type, distinct names and string groups. */
  predicate ValidExpected(v: Value)
  {
    v.List? && |v.items| > 0 &&
    (forall i | 0 <= i < |v.items| ::
      v.items[i].Object? && "name" in v.items[i].fields && "type" in v.items[i].fields &&
      ("group" in v.items[i].fields ==> v.items[i].fields["group"].Str?)) &&
    forall i, j | 0 <= i < j < |v.items| ::
      v.items[i].Object? && v.items[j].Object? && "name" in v.items[i].fields && "name" in v.items[j].fields &&
      v.items[i].fields["name"] != v.items[j].fields["name"]
  }

  lemma {:induction false} ItemsErrorNone(items: seq<Value>, from: nat)
    requires from <= |items|
    ensures ItemsError(items, from).None? <==> forall i | from <= i < |items| :: ItemError(items, i).None?
    decreases |items| - from
  {
    if from < |items| {
      ItemsErrorNone(items, from + 1);
    }
  }

  /** The checks pass exactly on valid expected results. */
  lemma {:induction false} ExpectedErrorIff(v: Value)
    ensures ExpectedError(v).None? <==> ValidExpected(v)
  {
    if v.List? && |v.items| > 0 {
      var items := v.items;
      ItemsErrorNone(items, 0);
      if ItemsError(items, 0).None? {
        forall i | 0 <= i < |items|
          ensures items[i].Object? && "name" in items[i].fields && "type" in items[i].fields
          ensures "group" in items[i].fields ==> items[i].fields["group"].Str?
        {
          assert ItemError(items, i).None?;
        }
        forall i, j | 0 <= i < j < |items|
          ensures items[i].Object? && items[j].Object? && "name" in items[i].fields && "name" in items[j].fields
          ensures items[i].fields["name"] != items[j].fields["name"]
        {
          assert ItemError(items, i).None? && ItemError(items, j).None?;
          assert !NameTaken(items, j);
        }
      }
      if ValidExpected(v) {
        forall i | 0 <= i < |items| ensures ItemError(items, i).None? {
          assert !NameTaken(items, i);
        }
      }
    }
  }

  /** The stored form of an entry: its name and type, and its group when it has one. */
  function Canonical(d: Dict): (c: Dict)
    requires "name" in d && "type" in d
  {
    var base := map["name" := d["name"], "type" := d["type"]];
    if "group" in d then base["group" := d["group"]] else base
  }

  /** Canonical keeps name, type and group as they are and drops every other key ("default" included). */
  lemma {:induction false} CanonicalKeys(d: Dict)
    requires "name" in d && "type" in d
    ensures Canonical(d).Keys == {"name", "type"} + (if "group" in d then {"group"} else {})
    ensures forall k | k in Canonical(d) :: k in d && Canonical(d)[k] == d[k]
    ensures "default" !in Canonical(d)
  {
  }

  /** The stored expected results: the canonical form of each entry, in order. */
  function StoredExpected(items: seq<Value>): (r: seq<Dict>)
    requires forall i | 0 <= i < |items| :: items[i].Object? && "name" in items[i].fields && "type" in items[i].fields
    ensures |r| == |items|
  {
    seq(|items|, i requires 0 <= i < |items| => Canonical(items[i].fields))
  }

  /** Stored results keep the input's order and names, and the names are pairwise distinct. */
  lemma {:induction false} StoredExpectedNames(v: Value)
    requires ValidExpected(v)
    ensures forall i | 0 <= i < |v.items| :: StoredExpected(v.items)[i]["name"] == v.items[i].fields["name"]
    ensures forall i, j | 0 <= i < j < |v.items| :: StoredExpected(v.items)[i]["name"] != StoredExpected(v.items)[j]["name"]
  {
  }

}
