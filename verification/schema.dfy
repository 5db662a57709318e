/**
 * The block structure of a project: an ordered list of block levels, the last
 * one being the sample level. Each level has a name and up to four groups of
 * typed columns (contexts, inputs, groundTruth, others).
 */
module Schema {
  import opened Wrappers
  import opened Values

  /** The four column groups, in the order every traversal visits them. */
  datatype Group = Contexts | Inputs | GroundTruth | Others

  const Groups: seq<Group> := [Contexts, Inputs, GroundTruth, Others]

  /** The dict key under which a group is stored. */
  function GroupKey(g: Group): string
  {
    match g
    case Contexts => "contexts"
    case Inputs => "inputs"
    case GroundTruth => "groundTruth"
    case Others => "others"
  }

  /** A declared column: its label and its declared type ("text", "number", ...). */
  datatype Column = Column(name: string, ctype: string)

  /** A block level; `groups` holds exactly the groups the level declares. */
  datatype BlockLevel = BlockLevel(name: string, groups: map<Group, seq<Column>>)

  /** The columns a level declares for a group; none when the group is absent. */
  function Declared(b: BlockLevel, g: Group): seq<Column>
  {
    if g in b.groups then b.groups[g] else []
  }

  /** The columns of the given groups, group after group. */
  function ColumnsOf(b: BlockLevel, gs: seq<Group>): seq<Column>
  {
    if gs == [] then [] else Declared(b, gs[0]) + ColumnsOf(b, gs[1..])
  }

  function Names(cs: seq<Column>): (r: seq<string>)
    ensures |r| == |cs|
    ensures forall k | 0 <= k < |cs| :: r[k] == cs[k].name
  {
    seq(|cs|, k requires 0 <= k < |cs| => cs[k].name)
  }

  /** The labels of one level: its name, then its columns in group order. */
  function LevelLabels(b: BlockLevel): seq<string>
  {
    [b.name] + Names(ColumnsOf(b, Groups))
  }

  /** The header row of a project table: every level's labels, level after level. */
  function Header(bs: seq<BlockLevel>): seq<string>
  {
    if bs == [] then [] else LevelLabels(bs[0]) + Header(bs[1..])
  }

  /** Cells a level contributes to a table row: its name and one per declared column. */
  function LineWidth(b: BlockLevel): nat
  {
    1 + |ColumnsOf(b, Groups)|
  }

  /** The width of a table row for the given levels. */
  function Width(bs: seq<BlockLevel>): nat
  {
    if bs == [] then 0 else LineWidth(bs[0]) + Width(bs[1..])
  }

  /** The header has one label per cell of a full-depth row. */
  lemma {:induction false} HeaderWidth(bs: seq<BlockLevel>)
    ensures |Header(bs)| == Width(bs)
  {
    if bs != [] {
      HeaderWidth(bs[1..]);
    }
  }

  lemma {:induction false} HeaderAppend(a: seq<BlockLevel>, b: seq<BlockLevel>)
    ensures Header(a + b) == Header(a) + Header(b)
  {
    if a == [] {
      assert a + b == b;
    } else {
      assert (a + b)[1..] == a[1..] + b;
      HeaderAppend(a[1..], b);
    }
  }

  // Reading a stored (dict-shaped) block structure as typed levels.

  /** A column dict with a string name and a string type. */
  function ToColumn(v: Value): Option<Column>
  {
    match v
    case Object(f) =>
      if "name" in f && f["name"].Str? && "type" in f && f["type"].Str?
      then Some(Column(f["name"].s, f["type"].s))
      else None
    case _ => None
  }

  /** An empty string or an empty dict: Python iterates over it without reading a column. */
  predicate EmptyIterable(v: Value)
  {
    v == Str("") || v == Object(map[])
  }

  /**
   * A group entry that is a list of readable column dicts, an empty string or
   * dict (read as no columns), or an absent group.
   */
  predicate GroupReadable(d: Dict, g: Group)
  {
    GroupKey(g) in d ==>
      EmptyIterable(d[GroupKey(g)]) ||
      (d[GroupKey(g)].List? &&
       forall k | 0 <= k < |d[GroupKey(g)].items| :: ToColumn(d[GroupKey(g)].items[k]).Some?)
  }

  function GroupColumns(d: Dict, g: Group): seq<Column>
    requires GroupKey(g) in d && GroupReadable(d, g)
  {
    if !d[GroupKey(g)].List? then []
    else
      var items := d[GroupKey(g)].items;
      seq(|items|, k requires 0 <= k < |items| => ToColumn(items[k]).value)
  }

  /** The typed level of a block dict, when its name and columns are strings. */
  function ToLevel(d: Dict): (r: Option<BlockLevel>)
    ensures r.Some? ==> "name" in d && d["name"] == Str(r.value.name)
    ensures r.Some? ==> forall g :: g in r.value.groups <==> GroupKey(g) in d
  {
    if "name" in d && d["name"].Str? && forall g :: GroupReadable(d, g) then
      Some(BlockLevel(d["name"].s, map g | GroupKey(g) in d :: GroupColumns(d, g)))
    else
      None
  }

  /** The typed levels of a block structure, when every level is readable. */
  function ToLevels(ds: seq<Dict>): (r: Option<seq<BlockLevel>>)
    ensures r.Some? ==> |r.value| == |ds|
  {
    if ds == [] then Some([])
    else
      match (ToLevel(ds[0]), ToLevels(ds[1..]))
      case (Some(b), Some(rest)) => Some([b] + rest)
      case _ => None
  }
}
