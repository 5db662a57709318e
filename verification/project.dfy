/**
 * Debiai_project: a project handle that caches the project's block
 * structure, expected results and models as the backend last reported them,
 * checks the arguments of its setters, uploads samples in chunks, looks up
 * models, selections and tags by name, and reads the samples back as a
 * table whose first row is the header.
 */
module Project {
  import opened Wrappers
  import opened Values
  import opened Schema
  import opened Tree
  import opened IndexMap
  import opened ProjectChecks
  import opened Chunking
  import opened Backend
  import opened TreeToArray
  import NpToDict
  import DfToDictTree

  /** The errors the project methods raise. */
  datatype Error =
    | NoProject                  // get_project answered 404; the source then fails reading None
    | NotSet                     // "... block_structure hasn't been set yet"
    | AlreadyCreated             // "Cannot set the blockLevel structure - already created"
    | InvalidStructure(schema: SchemaError)
    | InvalidResults(results: ResultsError)
    | MissingLabel(missing: Missing)
    | Malformed                  // data the source cannot read (a KeyError, TypeError or IndexError)
    | Failed(failure: Failure)   // a write call that failed
    | NoName                     // "... name is required"
    | NameNotString              // "... name must be a string"
    | Unknown(name: string)      // "The model/selection '...' does not exist"
    | Stack                      // numpy cannot stack arrays of different widths

  /** The cached project attributes. */
  datatype Infos = Infos(blockStructure: Value, expectedResults: Value, models: Value, creationDate: Value, updateDate: Value)

  /** The attributes after reading a project document: each key present overwrites its attribute. */
  function Refreshed(info: Dict, s: Infos): (t: Infos)
  {
    Infos(
      if "blockLevelInfo" in info then info["blockLevelInfo"] else s.blockStructure,
      if "resultStructure" in info then info["resultStructure"] else s.expectedResults,
      if "models" in info then info["models"] else s.models,
      if "creationDate" in info then info["creationDate"] else s.creationDate,
      if "updateDate" in info then info["updateDate"] else s.updateDate)
  }

  /** The typed block structure of a stored value: a list of readable block dicts. */
  function Levels(v: Value): (r: Option<seq<BlockLevel>>)
    ensures r.Some? ==> v.List? && |r.value| == |v.items|
  {
    if v.List? && forall i | 0 <= i < |v.items| :: v.items[i].Object? then
      ToLevels(seq(|v.items|, i requires 0 <= i < |v.items| => v.items[i].fields))
    else None
  }

  /** Every chunk of readable rows is readable. */
  lemma {:induction false} ChunksReadableOf(bs: seq<BlockLevel>, idx: map<string, nat>, data: seq<NpToDict.Row>)
    requires NpToDict.AllReadable(bs, idx, data)
    ensures forall k | 0 <= k < |Chunks(data, CHUNK_SIZE)| :: NpToDict.AllReadable(bs, idx, Chunks(data, CHUNK_SIZE)[k])
  {
    var chunks := Chunks(data, CHUNK_SIZE);
    forall k | 0 <= k < |chunks| ensures NpToDict.AllReadable(bs, idx, chunks[k]) {
      ChunkAt(data, CHUNK_SIZE, k, k * CHUNK_SIZE);
    }
  }

  /** Every chunk of a rectangular frame's rows is rectangular. */
  lemma {:induction false} ChunksRectangularOf(f: DfToDictTree.Frame)
    requires DfToDictTree.Rectangular(f)
    ensures forall k | 0 <= k < |Chunks(f.data, CHUNK_SIZE)| :: DfToDictTree.Rectangular(DfToDictTree.Frame(f.columns, Chunks(f.data, CHUNK_SIZE)[k]))
  {
    var chunks := Chunks(f.data, CHUNK_SIZE);
    forall k | 0 <= k < |chunks| ensures DfToDictTree.Rectangular(DfToDictTree.Frame(f.columns, chunks[k])) {
      ChunkAt(f.data, CHUNK_SIZE, k, k * CHUNK_SIZE);
    }
  }

  lemma {:induction false} ReadableSlice(bs: seq<BlockLevel>, idx: map<string, nat>, data: seq<NpToDict.Row>, a: nat, b: nat)
    requires NpToDict.AllReadable(bs, idx, data) && a <= b <= |data|
    ensures NpToDict.AllReadable(bs, idx, data[a..b])
  {
    assert forall k | 0 <= k < b - a :: data[a..b][k] == data[a + k];
  }

  lemma {:induction false} RectangularSlice(f: DfToDictTree.Frame, a: nat, b: nat)
    requires DfToDictTree.Rectangular(f) && a <= b <= |f.data|
    ensures DfToDictTree.Rectangular(DfToDictTree.Frame(f.columns, f.data[a..b]))
  {
    assert forall k | 0 <= k < b - a :: f.data[a..b][k] == f.data[a + k];
  }

  /** The k-th request of add_samples is the encoded tree of the k-th chunk. */
  lemma {:induction false} NpRequestAt(bs: seq<BlockLevel>, data: seq<NpToDict.Row>, idx: map<string, nat>, k: nat, a: nat, b: nat)
    requires |bs| > 0 && NpToDict.AllReadable(bs, idx, data)
    requires k < |Chunks(data, CHUNK_SIZE)| && a <= b <= |data| && Chunks(data, CHUNK_SIZE)[k] == data[a..b]
    ensures NpToDict.AllReadable(bs, idx, data[a..b])
    ensures NpRequests(bs, data, idx)[k] == PostAddTree(NpTree(NpToDict.Encode(bs, data[a..b], idx)))
  {
    ReadableSlice(bs, idx, data, a, b);
  }

  /** The k-th request of add_samples_pd is the encoded tree of the k-th chunk of rows. */
  lemma {:induction false} DfRequestAt(bs: seq<BlockLevel>, f: DfToDictTree.Frame, k: nat, a: nat, b: nat)
    requires DfToDictTree.Rectangular(f) && AllPresent(Required(bs), f.columns)
    requires k < |Chunks(f.data, CHUNK_SIZE)| && a <= b <= |f.data| && Chunks(f.data, CHUNK_SIZE)[k] == f.data[a..b]
    ensures DfToDictTree.Rectangular(DfToDictTree.Frame(f.columns, f.data[a..b]))
    ensures DfRequests(bs, f)[k] == PostAddTree(DfTree(DfToDictTree.Encoded(bs, DfToDictTree.Frame(f.columns, f.data[a..b]))))
  {
    RectangularSlice(f, a, b);
  }

  /** The requests add_samples sends for the rows under the header: the encoded tree of each chunk, in order. */
  function NpRequests(bs: seq<BlockLevel>, data: seq<NpToDict.Row>, idx: map<string, nat>): (r: seq<Request>)
    requires |bs| > 0 && NpToDict.AllReadable(bs, idx, data)
    ensures |r| == |Chunks(data, CHUNK_SIZE)|
  {
    ChunksReadableOf(bs, idx, data);
    var chunks := Chunks(data, CHUNK_SIZE);
    seq(|chunks|, k requires 0 <= k < |chunks| => PostAddTree(NpTree(NpToDict.Encode(bs, chunks[k], idx))))
  }

  /** The requests add_samples_pd sends for a frame: the encoded tree of each chunk of rows, in order. */
  function DfRequests(bs: seq<BlockLevel>, f: DfToDictTree.Frame): (r: seq<Request>)
    requires DfToDictTree.Rectangular(f) && AllPresent(Required(bs), f.columns)
    ensures |r| == |Chunks(f.data, CHUNK_SIZE)|
  {
    ChunksRectangularOf(f);
    var chunks := Chunks(f.data, CHUNK_SIZE);
    seq(|chunks|, k requires 0 <= k < |chunks| =>
      PostAddTree(DfTree(DfToDictTree.Encoded(bs, DfToDictTree.Frame(f.columns, chunks[k])))))
  }

  /** A listed model: a dict with an id and a name. */
  predicate Listed(v: Value)
  {
    v.Object? && "id" in v.fields && "name" in v.fields
  }

  /** A Debiai_model handle: the model's name and id. */
  datatype ModelRef = ModelRef(name: Value, id: Value)

  /**
   * The handle get_model builds from a listed model, as written: it passes
   * (id, name) to a constructor whose parameters are (name, id).
   */
  function HandleAsWritten(entry: Dict): ModelRef
    requires "id" in entry && "name" in entry
  {
    ModelRef(entry["id"], entry["name"])
  }

  /**
   * Every listed model whose id differs from its name comes back with the
   * two swapped, so its handle is not the intended one; for example the
   * model {"id": "m1", "name": "resnet"} is named "m1".
   */
  lemma {:induction false} HandleAsWrittenSwaps(entry: Dict)
    requires "id" in entry && "name" in entry && entry["id"] != entry["name"]
    ensures HandleAsWritten(entry).name == entry["id"] && HandleAsWritten(entry).name != entry["name"]
    ensures HandleAsWritten(entry).id == entry["name"] && HandleAsWritten(entry).id != entry["id"]
    ensures HandleAsWritten(entry) != Handle(entry)
    ensures HandleAsWritten(map["id" := Str("m1"), "name" := Str("resnet")]).name == Str("m1")
  {
  }

  /** The handle of a listed model with its own name and id, as the constructor's parameters intend. */
  function Handle(entry: Dict): (m: ModelRef)
    requires "id" in entry && "name" in entry
  {
    ModelRef(entry["name"], entry["id"])
  }

  /**
   * The request delete_model sends for the handle get_model found, as
   * written: the handle's id, which HandleAsWritten fills with the listed name.
   */
  function DeleteAsWritten(entry: Dict): Request
    requires "id" in entry && "name" in entry
  {
    Request.DeleteModel(HandleAsWritten(entry).id)
  }

  /**
   * As written, delete_model asks the backend to delete the model whose id
   * is the listed name, not the model's own id; and a handle from get_model,
   * passed back in, is looked up by the listed id, so with that model alone
   * listed it is reported as not existing. For {"id": "m1", "name": "resnet"}
   * the request is DELETE /models/resnet.
   */
  lemma {:induction false} DeleteAsWrittenSendsName(entry: Dict)
    requires "id" in entry && "name" in entry && entry["id"] != entry["name"]
    ensures DeleteAsWritten(entry) == Request.DeleteModel(entry["name"])
    ensures DeleteAsWritten(entry) != Request.DeleteModel(Handle(entry).id)
    ensures NoModel([Object(entry)], ModelHandle(HandleAsWritten(entry)).Name())
  {
    HandleAsWrittenSwaps(entry);
  }

  /**
   * With the intended handle, the round trip holds: the handle get_model
   * returns for the first model named n is looked up under n again, finds
   * that same model, and its delete request carries the model's own id.
   */
  lemma {:induction false} HandleRoundTrip(items: seq<Value>, n: Value, i: int)
    requires FirstModel(items, n, i)
    ensures FirstModel(items, ModelHandle(Handle(items[i].fields)).Name(), i)
    ensures Request.DeleteModel(Handle(items[i].fields).id) == Request.DeleteModel(items[i].fields["id"])
  {
  }

  /** Position i holds the first listed model with that name; every model before it is listed. */
  predicate FirstModel(items: seq<Value>, n: Value, i: int)
  {
    0 <= i < |items| && Listed(items[i]) && items[i].fields["name"] == n &&
    forall j | 0 <= j < i :: Listed(items[j]) && items[j].fields["name"] != n
  }

  /** Every model is listed and none has that name. */
  predicate NoModel(items: seq<Value>, n: Value)
  {
    forall i | 0 <= i < |items| :: Listed(items[i]) && items[i].fields["name"] != n
  }

  /**
   * A models listing with no model of that name: an empty string or dict,
   * which Python iterates over without reading a model, or a list of models
   * none of which has it.
   */
  predicate NoModelIn(models: Value, n: Value)
  {
    EmptyIterable(models) || (models.List? && NoModel(models.items, n))
  }

  /** Position i is the first item that is not a listed model, and none before it has that name. */
  predicate Unlisted(items: seq<Value>, n: Value, i: int)
  {
    0 <= i < |items| && !Listed(items[i]) &&
    forall j | 0 <= j < i :: Listed(items[j]) && items[j].fields["name"] != n
  }

  /** Position i holds the first entity with that name. */
  predicate FirstNamed(es: seq<Entity>, n: Value, i: int)
  {
    0 <= i < |es| && es[i].name == n && forall j | 0 <= j < i :: es[j].name != n
  }

  predicate NoneNamed(es: seq<Entity>, n: Value)
  {
    forall i | 0 <= i < |es| :: es[i].name != n
  }

  /**
   * Whether the stored block structure equals `v`: None when the project
   * cannot be read or does not carry one.
   */
  function Stored(server: Server, v: Value): Option<bool>
    reads server
  {
    if server.project.Some? && "blockLevelInfo" in server.project.value
    then Some(server.project.value["blockLevelInfo"] == v)
    else None
  }

  /** The backend rejected the call with this number; a call that never reached it is not a rejection. */
  predicate Rejects(failures: map<nat, Failure>, call: nat)
  {
    call in failures && failures[call] == Rejected
  }

  /** A usable name for the deletes: a non-empty string. */
  predicate NameGiven(n: Value)
  {
    n.Str? && n.s != ""
  }

  /** The model argument of delete_model: a name or a model handle. */
  datatype ModelArg = ModelName(name: Value) | ModelHandle(model: ModelRef) {
    function Name(): Value
    {
      if ModelName? then name else model.name
    }
  }

  /** The selection argument of delete_selection: a name or a listed selection. */
  datatype SelectionArg = SelectionName(name: Value) | SelectionHandle(selection: Entity) {
    function Name(): Value
    {
      if SelectionName? then name else selection.name
    }
  }

  /** A table of cells: the header row, then the data rows. */
  type Table<V> = seq<seq<Field<V>>>

  function HeaderFields<V>(header: seq<string>): (r: seq<Field<V>>)
    ensures |r| == |header| && forall i | 0 <= i < |header| :: r[i] == Name(header[i])
  {
    seq(|header|, i requires 0 <= i < |header| => Name(header[i]))
  }

  /**
   * np.vstack([columns, data]) as get_numpy calls it: an empty data list is
   * a one-dimensional array of width 0, so it stacks with the header only
   * when the header is empty too; otherwise every row must be as wide as the
   * header.
   */
  function VStack<V>(header: seq<string>, data: seq<seq<Field<V>>>): Result<Table<V>, Error>
  {
    if data == [] then
      (if |header| == 0 then Ok([[], []]) else Err(Stack))
    else if forall k | 0 <= k < |data| :: |data[k]| == |header| then
      Ok([HeaderFields(header)] + data)
    else
      Err(Stack)
  }

  /** The project table, with the empty-data case answered by the header row alone (debiai_tag's get_numpy). */
  function NumpyTable<V>(header: seq<string>, data: seq<seq<Field<V>>>): Result<Table<V>, Error>
  {
    if data == [] then Ok([HeaderFields(header)]) else VStack(header, data)
  }

  /** As written, a project with a structure but no samples cannot be stacked. */
  lemma {:induction false} EmptyDataUnstackable<V>(header: seq<string>)
    requires |header| > 0
    ensures VStack<V>(header, []) == Err(Stack)
  {
  }

  /** The guarded table is the header followed by the data whenever the rows fit the header, no rows included. */
  lemma {:induction false} NumpyTableRows<V>(header: seq<string>, data: seq<seq<Field<V>>>)
    requires forall k | 0 <= k < |data| :: |data[k]| == |header|
    ensures NumpyTable(header, data) == Ok([HeaderFields(header)] + data)
    ensures |NumpyTable(header, data).value| == 1 + |data|
  {
    if data == [] {
      assert [HeaderFields<V>(header)] + data == [HeaderFields(header)];
    }
  }

  /**
   * What a DataFrame upload reads back as: the decoded rows of the encoded
   * tree are as many as the frame's distinct key paths, each as wide as the
   * header, so the table is the header followed by those rows.
   */
  lemma {:induction false} UploadReadsBack(bs: seq<BlockLevel>, f: DfToDictTree.Frame)
    requires |bs| > 0 && DfToDictTree.Rectangular(f) && AllPresent(Required(bs), f.columns)
    ensures forall k | 0 <= k < |DfToDictTree.Encoded(bs, f)| :: Conforms(bs, 0, DfToDictTree.Encoded(bs, f)[k])
    ensures |ForestData(bs, 0, DfToDictTree.Encoded(bs, f))| == |DfToDictTree.FramePaths(bs, f)|
    ensures NumpyTable(Header(bs), ForestData(bs, 0, DfToDictTree.Encoded(bs, f))) ==
      Ok([HeaderFields(Header(bs))] + ForestData(bs, 0, DfToDictTree.Encoded(bs, f)))
  {
    var tree := DfToDictTree.Encoded(bs, f);
    DfToDictTree.LeavesAreDistinctPaths(bs, f);
    RowsMatchHeader(bs, tree);
    ForestRowCount(bs, 0, tree);
    var data := ForestData(bs, 0, tree);
    assert forall k | 0 <= k < |data| :: |data[k]| == |Header(bs)| by {
      forall k | 0 <= k < |data| ensures |data[k]| == |Header(bs)| {
        assert data[k] in data;
      }
    }
    NumpyTableRows(Header(bs), data);
  }

  lemma {:induction false} ColumnsOfSnoc(b: BlockLevel, gs: seq<Group>, g: Group)
    ensures ColumnsOf(b, gs + [g]) == ColumnsOf(b, gs) + Declared(b, g)
  {
    if gs == [] {
      assert [g][1..] == [];
    } else {
      assert (gs + [g])[1..] == gs[1..] + [g];
      ColumnsOfSnoc(b, gs[1..], g);
    }
  }

  lemma {:induction false} NamesAppend(a: seq<Column>, b: seq<Column>)
    ensures Names(a + b) == Names(a) + Names(b)
  {
  }

  /** The labels of a group's columns, one after the other. */
  method GroupHeader(cols: seq<Column>) returns (labels: seq<string>)
    ensures labels == Names(cols)
  {
    labels := [];
    for c := 0 to |cols|
      invariant labels == Names(cols[..c])
    {
      assert cols[..c + 1] == cols[..c] + [cols[c]];
      NamesAppend(cols[..c], [cols[c]]);
      labels := labels + [cols[c].name];
    }
    assert cols[..|cols|] == cols;
  }

  /** The labels of one level: its name, then its columns group by group. */
  method LevelHeader(b: BlockLevel) returns (labels: seq<string>)
    ensures labels == LevelLabels(b)
  {
    labels := [b.name];
    assert Groups[..0] == [];
    for gi := 0 to |Groups|
      invariant labels == [b.name] + Names(ColumnsOf(b, Groups[..gi]))
    {
      var g := Groups[gi];
      if g in b.groups {
        var names := GroupHeader(b.groups[g]);
        labels := labels + names;
      }
      assert Groups[..gi + 1] == Groups[..gi] + [g];
      ColumnsOfSnoc(b, Groups[..gi], g);
      NamesAppend(ColumnsOf(b, Groups[..gi]), Declared(b, g));
    }
    assert Groups[..|Groups|] == Groups;
  }

  /** The header row get_numpy builds: the labels of each level in turn. */
  method HeaderRow(bs: seq<BlockLevel>) returns (columns: seq<string>)
    ensures columns == Header(bs)
    ensures |columns| == Width(bs)
  {
    columns := [];
    for i := 0 to |bs|
      invariant columns == Header(bs[..i])
    {
      var labels := LevelHeader(bs[i]);
      columns := columns + labels;
      assert bs[..i + 1] == bs[..i] + [bs[i]];
      HeaderAppend(bs[..i], [bs[i]]);
      assert [bs[i]][1..] == [];
    }
    assert bs[..|bs|] == bs;
    HeaderWidth(bs);
  }

  /** The block checks of set_blockstructure, block by block, group by group, column by column. */
  method CheckLevels(ds: seq<Dict>) returns (e: Option<SchemaError>)
    ensures e == LevelsError(ds, 0)
  {
    for i := 0 to |ds|
      invariant LevelsError(ds, 0) == LevelsError(ds, i)
    {
      var block := ds[i];
      if "name" !in block {
        return Some(BlockWithoutName(i + 1));
      }
      for gi := 0 to |Groups|
        invariant GroupsError(block, 0) == GroupsError(block, gi)
      {
        var g := Groups[gi];
        if GroupKey(g) in block {
          var cols := block[GroupKey(g)];
          if cols.Str? && cols.s != "" {
            return Some(ColumnWithoutName(g, block["name"]));
          }
          if cols.Object? && cols.fields != map[] {
            return Some(UnreadableGroup(g, block["name"]));
          }
          if !cols.List? && !EmptyIterable(cols) {
            return Some(UnreadableGroup(g, block["name"]));
          }
          if cols.List? {
            for k := 0 to |cols.items|
              invariant ColumnsError(g, cols.items, block["name"], 0) == ColumnsError(g, cols.items, block["name"], k)
            {
              var err := ColumnError(g, cols.items[k], block["name"]);
              if err.Some? {
                return err;
              }
            }
          }
        }
      }
    }
    return None;
  }

  /** e reports the first required label missing from the columns. */
  /**
   * The checks set_expected_results makes on one entry of its list, given
   * the entries already accepted: the first one that fails, or the entry as
   * it is stored.
   */
  method CheckColumn(items: seq<Value>, i: nat, exp: seq<Dict>) returns (err: Option<ResultsError>, entry: Dict)
    requires i < |items| && |exp| == i
    requires forall j | 0 <= j < i :: items[j].Object? && "name" in items[j].fields && "type" in items[j].fields
    requires forall j | 0 <= j < i :: exp[j] == Canonical(items[j].fields)
    ensures err == ItemError(items, i)
    ensures err.None? ==> items[i].Object? && "name" in items[i].fields && "type" in items[i].fields
    ensures err.None? ==> entry == Canonical(items[i].fields)
  {
    entry := map[];
    var column := items[i];
    if !column.Object? {
      return Some(NotADict), entry;
    }
    if "name" !in column.fields {
      return Some(WithoutName), entry;
    }
    if "type" !in column.fields {
      return Some(WithoutType), entry;
    }
    if exists j | 0 <= j < |exp| :: exp[j]["name"] == column.fields["name"] {
      return Some(DuplicateName), entry;
    }
    assert !NameTaken(items, i);
    entry := map["name" := column.fields["name"], "type" := column.fields["type"]];
    if "group" in column.fields {
      if !column.fields["group"].Str? {
        return Some(ResultGroupNotString), entry;
      }
      entry := entry["group" := column.fields["group"]];
    }
    err := None;
  }

  predicate ReportsMissing(bs: seq<BlockLevel>, columns: seq<string>, e: Error)
  {
    MissingAt(Required(bs), columns) < |Required(bs)| &&
    e == MissingLabel(Missing(Required(bs)[MissingAt(Required(bs), columns)]))
  }

  /** One chunk of add_samples: encode rows a..b of the data and post the tree, the k-th request of the upload. */
  method PostNpChunk(server: Server, bs: seq<BlockLevel>, data: seq<NpToDict.Row>, idx: map<string, nat>, a: nat, b: nat, ghost k: nat)
    returns (failure: Option<Failure>)
    requires |bs| > 0 && NpToDict.AllReadable(bs, idx, data)
    requires k < |Chunks(data, CHUNK_SIZE)| && a <= b <= |data| && Chunks(data, CHUNK_SIZE)[k] == data[a..b]
    modifies server
    ensures failure == (if old(server.calls) in old(server.failures) then Some(old(server.failures)[old(server.calls)]) else None)
    ensures failure.None? ==> server.accepted == old(server.accepted) + [NpRequests(bs, data, idx)[k]]
    ensures failure.Some? ==> server.accepted == old(server.accepted)
    ensures server.calls == old(server.calls) + 1
    ensures server.Observed() == old(server.Observed()) && server.failures == old(server.failures)
  {
    NpRequestAt(bs, data, idx, k, a, b);
    var tree := NpToDict.NpToDict(bs, data[a..b], idx);
    failure := server.Submit(PostAddTree(NpTree(tree)));
  }

  /**
   * One chunk of add_samples_pd: encode rows a..b of the frame with its
   * columns (a missing label fails) and post the tree, the k-th request of
   * the upload.
   */
  method PostDfChunk(server: Server, bs: seq<BlockLevel>, f: DfToDictTree.Frame, a: nat, b: nat, ghost k: nat)
    returns (r: Outcome<Error>)
    requires DfToDictTree.Rectangular(f)
    requires k < |Chunks(f.data, CHUNK_SIZE)| && a <= b <= |f.data| && Chunks(f.data, CHUNK_SIZE)[k] == f.data[a..b]
    modifies server
    ensures !AllPresent(Required(bs), f.columns) ==>
      r.Fail? && ReportsMissing(bs, f.columns, r.error) && server.calls == old(server.calls)
    ensures AllPresent(Required(bs), f.columns) ==>
      r == (if old(server.calls) in old(server.failures) then Fail(Failed(old(server.failures)[old(server.calls)])) else Pass) &&
      server.calls == old(server.calls) + 1
    ensures r.Pass? ==>
      AllPresent(Required(bs), f.columns) &&
      server.accepted == old(server.accepted) + [DfRequests(bs, f)[k]]
    ensures r.Fail? ==> server.accepted == old(server.accepted)
    ensures server.Observed() == old(server.Observed()) && server.failures == old(server.failures)
  {
    RectangularSlice(f, a, b);
    var tree := DfToDictTree.DfToDictTree(DfToDictTree.Frame(f.columns, f.data[a..b]), bs);
    if tree.Err? {
      return Fail(MissingLabel(tree.error));
    }
    DfRequestAt(bs, f, k, a, b);
    var failure := server.Submit(PostAddTree(DfTree(tree.value)));
    if failure.Some? {
      return Fail(Failed(failure.value));
    }
    return Pass;
  }

  /**
   * The upload loop of add_samples: the rows are encoded and posted in
   * chunks of 5000, in order, and the progress is advanced after each;
   * the first failed post stops the loop.
   */
  method UploadNp(server: Server, bs: seq<BlockLevel>, data: seq<NpToDict.Row>, idx: map<string, nat>) returns (r: Outcome<Error>, ghost progress: seq<nat>)
    requires |bs| > 0 && NpToDict.AllReadable(bs, idx, data)
    modifies server
    ensures r.Pass? <==> NoFailure(old(server.failures), old(server.calls), |Chunks(data, CHUNK_SIZE)|)
    ensures r.Pass? ==>
      server.accepted == old(server.accepted) + NpRequests(bs, data, idx) &&
      progress == Progress(Chunks(data, CHUNK_SIZE))
    ensures r.Fail? ==> exists k | 0 <= k < |Chunks(data, CHUNK_SIZE)| ::
      FirstFailure(old(server.failures), old(server.calls), k) &&
      r == Fail(Failed(old(server.failures)[old(server.calls) + k])) &&
      server.accepted == old(server.accepted) + NpRequests(bs, data, idx)[..k]
    ensures server.Observed() == old(server.Observed()) && server.failures == old(server.failures)
  {
    progress := [];
    var n := |data|;
    SlicesChunks(data, CHUNK_SIZE, 0);
    assert data[0..] == data;
    var added := 0;
    ghost var k := 0;
    while added < n
      invariant NpLoop(bs, data, idx, old(server.accepted), server.accepted, added, k, progress, old(server.calls), server.calls, server.failures)
      invariant server.Observed() == old(server.Observed()) && server.failures == old(server.failures)
      modifies server
      decreases n - added
    {
      var failure;
      failure, progress := PostNpStep(server, bs, data, idx, added, k, old(server.accepted), old(server.calls), progress);
      if failure.Some? {
        return Fail(Failed(failure.value)), progress;
      }
      added := added + CHUNK_SIZE;
      k := k + 1;
    }
    NpLoopDone(bs, data, idx, old(server.accepted), server.accepted, added, k, progress, old(server.calls), server.calls, server.failures);
    return Pass, progress;
  }

  /**
   * The state of the upload loop of add_samples after k chunks, the next
   * one starting at row `added`: the k calls made since call number
   * `baseCalls` all succeeded, the requests of those chunks were accepted
   * after `base`, and their progress values recorded.
   */
  ghost predicate NpLoop(bs: seq<BlockLevel>, data: seq<NpToDict.Row>, idx: map<string, nat>, base: seq<Request>, accepted: seq<Request>,
                         added: nat, k: nat, progress: seq<nat>, baseCalls: nat, calls: nat, failures: map<nat, Failure>)
    requires |bs| > 0 && NpToDict.AllReadable(bs, idx, data)
  {
    var chunks := Chunks(data, CHUNK_SIZE);
    k <= |chunks| && chunks[k..] == Slices(data, CHUNK_SIZE, added) &&
    calls == baseCalls + k && NoFailure(failures, baseCalls, k) &&
    accepted == base + NpRequests(bs, data, idx)[..k] &&
    progress + Ends(|data|, CHUNK_SIZE, added) == Ends(|data|, CHUNK_SIZE, 0)
  }

  /** Where the upload loop of add_samples ends: every chunk was posted and every progress value recorded. */
  lemma {:induction false} NpLoopDone(bs: seq<BlockLevel>, data: seq<NpToDict.Row>, idx: map<string, nat>, base: seq<Request>, accepted: seq<Request>,
                                      added: nat, k: nat, progress: seq<nat>, baseCalls: nat, calls: nat, failures: map<nat, Failure>)
    requires |bs| > 0 && NpToDict.AllReadable(bs, idx, data) && |data| <= added
    requires NpLoop(bs, data, idx, base, accepted, added, k, progress, baseCalls, calls, failures)
    ensures NoFailure(failures, baseCalls, |Chunks(data, CHUNK_SIZE)|)
    ensures accepted == base + NpRequests(bs, data, idx)
    ensures progress == Progress(Chunks(data, CHUNK_SIZE))
  {
    var chunks := Chunks(data, CHUNK_SIZE);
    assert chunks[k..] == [];
    assert k == |chunks|;
    LogDone(accepted, base, NpRequests(bs, data, idx), k);
    EndsProgress(data, CHUNK_SIZE);
  }

  /**
   * One pass of the upload loop of add_samples: post the chunk starting at
   * row `added`; on success the loop state moves one chunk on, on failure
   * the call that failed is the first planned failure.
   */
  method PostNpStep(server: Server, bs: seq<BlockLevel>, data: seq<NpToDict.Row>, idx: map<string, nat>, added: nat, ghost k: nat,
                    ghost base: seq<Request>, ghost baseCalls: nat, ghost progress: seq<nat>)
    returns (failure: Option<Failure>, ghost progress': seq<nat>)
    requires |bs| > 0 && NpToDict.AllReadable(bs, idx, data) && added < |data|
    requires NpLoop(bs, data, idx, base, server.accepted, added, k, progress, baseCalls, server.calls, server.failures)
    modifies server
    ensures failure.None? ==>
      NpLoop(bs, data, idx, base, server.accepted, added + CHUNK_SIZE, k + 1, progress', baseCalls, server.calls, server.failures)
    ensures failure.Some? ==>
      k < |Chunks(data, CHUNK_SIZE)| && FirstFailure(server.failures, baseCalls, k) &&
      failure == Some(server.failures[baseCalls + k]) && server.accepted == base + NpRequests(bs, data, idx)[..k]
    ensures server.Observed() == old(server.Observed()) && server.failures == old(server.failures)
  {
    ghost var chunks := Chunks(data, CHUNK_SIZE);
    var n := |data|;
    var end := Min(added + CHUNK_SIZE, n);
    SlicesStep(data, CHUNK_SIZE, added, chunks, k);
    ghost var before := server.accepted;
    failure := PostNpChunk(server, bs, data, idx, added, end, k);
    progress' := progress;
    if failure.Some? {
      return;
    }
    LogStep(before, base, NpRequests(bs, data, idx), k);
    EndsStep(n, CHUNK_SIZE, added, progress);
    progress' := progress + [end];
  }

  /**
   * add_samples once the structure is read: the header row is checked
   * against the structure, then the rows under it are uploaded.
   */
  method UploadSamples(server: Server, bs: seq<BlockLevel>, samples: seq<NpToDict.Row>)
    returns (r: Outcome<Error>, ghost progress: seq<nat>)
    requires |bs| > 0 && |samples| > 0
    requires forall k | 0 <= k < |samples| :: |samples[k]| == |samples[0]|
    modifies server
    ensures r.Fail? ==> r.error.MissingLabel? || r.error.Failed?
    ensures !AllPresent(Required(bs), samples[0]) ==>
      r.Fail? && ReportsMissing(bs, samples[0], r.error) && server.accepted == old(server.accepted)
    ensures r.Fail? && r.error.MissingLabel? ==> ReportsMissing(bs, samples[0], r.error) && server.accepted == old(server.accepted)
    ensures AllPresent(Required(bs), samples[0]) ==>
      NpToDict.AllReadable(bs, Positions(Required(bs), samples[0]), samples[1..]) &&
      (r.Pass? <==> NoFailure(old(server.failures), old(server.calls), |Chunks(samples[1..], CHUNK_SIZE)|))
    ensures r.Pass? ==>
      AllPresent(Required(bs), samples[0]) &&
      server.accepted == old(server.accepted) + NpRequests(bs, samples[1..], Positions(Required(bs), samples[0])) &&
      progress == Progress(Chunks(samples[1..], CHUNK_SIZE))
    ensures r.Fail? && r.error.Failed? ==>
      AllPresent(Required(bs), samples[0]) &&
      exists k | 0 <= k < |Chunks(samples[1..], CHUNK_SIZE)| ::
        FirstFailure(old(server.failures), old(server.calls), k) &&
        r == Fail(Failed(old(server.failures)[old(server.calls) + k])) &&
        server.accepted == old(server.accepted) + NpRequests(bs, samples[1..], Positions(Required(bs), samples[0]))[..k]
    ensures server.Observed() == old(server.Observed()) && server.failures == old(server.failures)
  {
    progress := [];
    var built := BuildIndexMap(bs, samples[0]);
    if built.Err? {
      return Fail(MissingLabel(built.error)), progress;
    }
    var idx := built.value;
    PositionsReadable(bs, samples[0]);
    var data := samples[1..];
    assert forall k | 0 <= k < |data| :: |data[k]| == |samples[0]|;
    r, progress := UploadNp(server, bs, data, idx);
  }

  /**
   * The upload loop of add_samples_pd: the rows are cut in chunks of
   * 5000, each chunk is encoded with the frame's columns and posted, in
   * order; a missing label stops the first chunk, a failed post the loop.
   */
  method UploadDf(server: Server, bs: seq<BlockLevel>, f: DfToDictTree.Frame) returns (r: Outcome<Error>, ghost progress: seq<nat>)
    requires DfToDictTree.Rectangular(f)
    modifies server
    ensures f.data == [] ==> r == Pass && progress == [] && server.accepted == old(server.accepted)
    ensures f.data != [] && !AllPresent(Required(bs), f.columns) ==>
      r.Fail? && ReportsMissing(bs, f.columns, r.error) && server.accepted == old(server.accepted)
    ensures f.data != [] && AllPresent(Required(bs), f.columns) ==>
      (r.Pass? <==> NoFailure(old(server.failures), old(server.calls), |Chunks(f.data, CHUNK_SIZE)|))
    ensures r.Pass? && f.data != [] ==>
      AllPresent(Required(bs), f.columns) &&
      server.accepted == old(server.accepted) + DfRequests(bs, f) &&
      progress == Progress(Chunks(f.data, CHUNK_SIZE))
    ensures r.Fail? ==> r.error.MissingLabel? || r.error.Failed?
    ensures r.Fail? && r.error.MissingLabel? ==> f.data != [] && ReportsMissing(bs, f.columns, r.error)
    ensures r.Fail? && r.error.Failed? ==>
      AllPresent(Required(bs), f.columns) &&
      exists k | 0 <= k < |Chunks(f.data, CHUNK_SIZE)| ::
        FirstFailure(old(server.failures), old(server.calls), k) &&
        r == Fail(Failed(old(server.failures)[old(server.calls) + k])) &&
        server.accepted == old(server.accepted) + DfRequests(bs, f)[..k]
    ensures server.Observed() == old(server.Observed()) && server.failures == old(server.failures)
  {
    progress := [];
    var n := |f.data|;
    if n == 0 {
      return Pass, progress;
    }
    SlicesChunks(f.data, CHUNK_SIZE, 0);
    assert f.data[0..] == f.data;
    var added := 0;
    ghost var k := 0;
    while added < n
      invariant DfLoop(bs, f, old(server.accepted), server.accepted, added, k, progress, old(server.calls), server.calls, server.failures)
      invariant server.Observed() == old(server.Observed()) && server.failures == old(server.failures)
      modifies server
      decreases n - added
    {
      var sent;
      sent, progress := PostDfStep(server, bs, f, added, k, old(server.accepted), old(server.calls), progress);
      if sent.Fail? {
        assert sent.error.Failed? ==> old(server.calls) + k in old(server.failures);
        return sent, progress;
      }
      added := added + CHUNK_SIZE;
      k := k + 1;
    }
    DfLoopDone(bs, f, old(server.accepted), server.accepted, added, k, progress, old(server.calls), server.calls, server.failures);
    return Pass, progress;
  }

  /**
   * The state of the upload loop of add_samples_pd after k chunks, the next
   * one starting at row `added`: the k calls made since call number
   * `baseCalls` all succeeded, the requests of those chunks were accepted
   * after `base`, and their progress values recorded.
   */
  ghost predicate DfLoop(bs: seq<BlockLevel>, f: DfToDictTree.Frame, base: seq<Request>, accepted: seq<Request>,
                         added: nat, k: nat, progress: seq<nat>, baseCalls: nat, calls: nat, failures: map<nat, Failure>)
    requires DfToDictTree.Rectangular(f)
  {
    var chunks := Chunks(f.data, CHUNK_SIZE);
    k <= |chunks| && chunks[k..] == Slices(f.data, CHUNK_SIZE, added) &&
    calls == baseCalls + k && NoFailure(failures, baseCalls, k) &&
    (k == 0 ==> accepted == base) &&
    (k > 0 ==> AllPresent(Required(bs), f.columns) && accepted == base + DfRequests(bs, f)[..k]) &&
    progress + Ends(|f.data|, CHUNK_SIZE, added) == Ends(|f.data|, CHUNK_SIZE, 0)
  }

  /** Where the upload loop ends: every chunk was posted and every progress value recorded. */
  lemma {:induction false} DfLoopDone(bs: seq<BlockLevel>, f: DfToDictTree.Frame, base: seq<Request>, accepted: seq<Request>,
                                      added: nat, k: nat, progress: seq<nat>, baseCalls: nat, calls: nat, failures: map<nat, Failure>)
    requires DfToDictTree.Rectangular(f) && 0 < |f.data| <= added
    requires DfLoop(bs, f, base, accepted, added, k, progress, baseCalls, calls, failures)
    ensures AllPresent(Required(bs), f.columns)
    ensures NoFailure(failures, baseCalls, |Chunks(f.data, CHUNK_SIZE)|)
    ensures accepted == base + DfRequests(bs, f)
    ensures progress == Progress(Chunks(f.data, CHUNK_SIZE))
  {
    var chunks := Chunks(f.data, CHUNK_SIZE);
    assert chunks[k..] == [];
    ChunksCover(f.data, CHUNK_SIZE);
    assert k == |chunks| > 0;
    LogDone(accepted, base, DfRequests(bs, f), k);
    EndsProgress(f.data, CHUNK_SIZE);
  }

  /**
   * One pass of the upload loop of add_samples_pd: post the chunk starting
   * at row `added`; on success the loop state moves one chunk on.
   */
  method PostDfStep(server: Server, bs: seq<BlockLevel>, f: DfToDictTree.Frame, added: nat, ghost k: nat,
                    ghost base: seq<Request>, ghost baseCalls: nat, ghost progress: seq<nat>)
    returns (r: Outcome<Error>, ghost progress': seq<nat>)
    requires DfToDictTree.Rectangular(f) && added < |f.data|
    requires DfLoop(bs, f, base, server.accepted, added, k, progress, baseCalls, server.calls, server.failures)
    modifies server
    ensures r.Pass? ==> DfLoop(bs, f, base, server.accepted, added + CHUNK_SIZE, k + 1, progress', baseCalls, server.calls, server.failures)
    ensures r.Fail? ==> r.error.MissingLabel? || r.error.Failed?
    ensures !AllPresent(Required(bs), f.columns) ==>
      r.Fail? && ReportsMissing(bs, f.columns, r.error) && server.accepted == base
    ensures r.Fail? && r.error.MissingLabel? ==> ReportsMissing(bs, f.columns, r.error)
    ensures r.Fail? && r.error.Failed? ==>
      AllPresent(Required(bs), f.columns) && k < |Chunks(f.data, CHUNK_SIZE)| &&
      FirstFailure(server.failures, baseCalls, k) && r == Fail(Failed(server.failures[baseCalls + k])) &&
      server.accepted == base + DfRequests(bs, f)[..k]
    ensures server.Observed() == old(server.Observed()) && server.failures == old(server.failures)
  {
    ghost var chunks := Chunks(f.data, CHUNK_SIZE);
    var n := |f.data|;
    var end := Min(added + CHUNK_SIZE, n);
    SlicesStep(f.data, CHUNK_SIZE, added, chunks, k);
    ghost var before := server.accepted;
    r := PostDfChunk(server, bs, f, added, end, k);
    progress' := progress;
    if r.Fail? {
      assert r.error.MissingLabel? ==> k == 0;
      assert r.error.Failed? ==> k == 0 ==> server.accepted == base + DfRequests(bs, f)[..k];
      return;
    }
    LogStep(before, base, DfRequests(bs, f), k);
    EndsStep(n, CHUNK_SIZE, added, progress);
    progress' := progress + [end];
  }

  class Project {
    const name: Value
    const id: Value
    const server: Server
    var blockStructure: Value
    var expectedResults: Value
    var models: Value
    var creationDate: Value
    var updateDate: Value

    function State(): Infos
      reads this
    {
      Infos(blockStructure, expectedResults, models, creationDate, updateDate)
    }

    constructor(name: Value, id: Value, server: Server)
      ensures this.name == name && this.id == id && this.server == server
      ensures State() == Infos(Null, Null, Null, Null, Null)
    {
      this.name := name;
      this.id := id;
      this.server := server;
      blockStructure := Null;
      expectedResults := Null;
      models := Null;
      creationDate := Null;
      updateDate := Null;
    }

    /** Debiai_project(name, id, url): a handle loaded from the backend. */
    static method Open(name: Value, id: Value, server: Server) returns (r: Result<Project, Error>)
      ensures server.project.None? ==> r == Err(NoProject)
      ensures server.project.Some? ==>
        r.Ok? && fresh(r.value) && r.value.server == server && r.value.name == name && r.value.id == id &&
        r.value.State() == Refreshed(server.project.value, Infos(Null, Null, Null, Null, Null))
    {
      var p := new Project(name, id, server);
      var info := p.Refresh();
      if info.Err? {
        return Err(info.error);
      }
      return Ok(p);
    }

    /** _project_infos: read the project document and overwrite the attributes it carries. */
    method Refresh() returns (r: Result<Dict, Error>)
      modifies this
      ensures server.project.None? ==> r == Err(NoProject) && State() == old(State())
      ensures server.project.Some? ==> r == Ok(server.project.value) && State() == Refreshed(server.project.value, old(State()))
    {
      if server.project.None? {
        return Err(NoProject);
      }
      var info := server.project.value;
      if "blockLevelInfo" in info {
        blockStructure := info["blockLevelInfo"];
      }
      if "resultStructure" in info {
        expectedResults := info["resultStructure"];
      }
      if "models" in info {
        models := info["models"];
      }
      if "creationDate" in info {
        creationDate := info["creationDate"];
      }
      if "updateDate" in info {
        updateDate := info["updateDate"];
      }
      return Ok(info);
    }

    /** get_block_structure: the refreshed block structure, an error when it is unset or empty. */
    method GetBlockStructure() returns (r: Result<Value, Error>)
      modifies this
      ensures server.project.None? ==> r == Err(NoProject) && State() == old(State())
      ensures server.project.Some? ==> State() == Refreshed(server.project.value, old(State()))
      ensures server.project.Some? && !Truthy(blockStructure) ==> r == Err(NotSet)
      ensures r.Ok? <==> server.project.Some? && Truthy(blockStructure)
      ensures r.Ok? ==> r.value == blockStructure
    {
      var info := Refresh();
      if info.Err? {
        return Err(info.error);
      }
      if !Truthy(blockStructure) {
        return Err(NotSet);
      }
      return Ok(blockStructure);
    }

    /**
     * set_blockstructure: refuse when the backend already has a structure,
     * check the argument, upload it and keep it.
     */
    method SetBlockStructure(ds: seq<Dict>) returns (r: Outcome<Error>)
      modifies this, server
      ensures server.Observed() == old(server.Observed()) && server.failures == old(server.failures)
      ensures server.project.None? ==> r == Fail(NoProject) && State() == old(State())
      ensures server.project.Some? && r.Fail? ==> State() == Refreshed(server.project.value, old(State()))
      ensures r.Pass? ==>
        server.project.Some? && State() == Refreshed(server.project.value, old(State())).(blockStructure := ListOfDicts(ds))
      ensures server.project.Some? && "blockLevelInfo" !in server.project.value ==> r == Fail(Malformed)
      ensures Stored(server, List([])) == Some(false) ==> r == Fail(AlreadyCreated)
      ensures Stored(server, List([])) == Some(true) && StructureError(ds).Some? ==>
        r == Fail(InvalidStructure(StructureError(ds).value))
      ensures Stored(server, List([])) == Some(true) && StructureError(ds).None? ==>
        (r.Pass? <==> old(server.calls) !in old(server.failures))
      ensures r.Pass? ==> ValidStructure(ds) && blockStructure == ListOfDicts(ds)
      ensures r.Pass? ==> server.accepted == old(server.accepted) + [AddBlockLevel(ds)]
      ensures r.Fail? ==> server.accepted == old(server.accepted)
    {
      var info := Refresh();
      if info.Err? {
        return Fail(info.error);
      }
      if "blockLevelInfo" !in info.value {
        return Fail(Malformed);
      }
      if info.value["blockLevelInfo"] != List([]) {
        return Fail(AlreadyCreated);
      }
      if |ds| == 0 {
        return Fail(InvalidStructure(NoBlock));
      }
      var e := CheckLevels(ds);
      if e.Some? {
        return Fail(InvalidStructure(e.value));
      }
      StructureErrorIff(ds);
      var failure := server.Submit(AddBlockLevel(ds));
      if failure.Some? {
        return Fail(Failed(failure.value));
      }
      blockStructure := ListOfDicts(ds);
      return Pass;
    }

    /**
     * set_expected_results: refuse when they are already set, check the
     * argument, upload and keep the canonical form of each entry.
     */
    method SetExpectedResults(v: Value) returns (r: Outcome<Error>)
      modifies this, server
      ensures old(expectedResults) != Null ==> r == Fail(InvalidResults(AlreadySet))
      ensures old(expectedResults) == Null && ExpectedError(v).Some? ==> r == Fail(InvalidResults(ExpectedError(v).value))
      ensures old(expectedResults) == Null && ExpectedError(v).None? ==>
        (r.Pass? <==> old(server.calls) !in old(server.failures))
      ensures r.Pass? ==> ValidExpected(v) && expectedResults == ListOfDicts(StoredExpected(v.items))
      ensures r.Pass? ==> server.accepted == old(server.accepted) + [PostExpectedResults(StoredExpected(v.items))]
      ensures r.Fail? ==> server.accepted == old(server.accepted)
      ensures r.Pass? ==> State() == old(State()).(expectedResults := ListOfDicts(StoredExpected(v.items)))
      ensures r.Fail? ==> State() == old(State())
      ensures server.Observed() == old(server.Observed()) && server.failures == old(server.failures)
    {
      if expectedResults != Null {
        return Fail(InvalidResults(AlreadySet));
      }
      if !v.List? {
        return Fail(InvalidResults(NotAList));
      }
      var items := v.items;
      if |items| == 0 {
        return Fail(InvalidResults(NoResult));
      }
      var exp: seq<Dict> := [];
      for i := 0 to |items|
        invariant ItemsError(items, 0) == ItemsError(items, i)
        invariant |exp| == i
        invariant forall j | 0 <= j < i :: items[j].Object? && "name" in items[j].fields && "type" in items[j].fields
        invariant forall j | 0 <= j < i :: exp[j] == Canonical(items[j].fields)
        invariant unchanged(this) && unchanged(server)
      {
        var err, entry := CheckColumn(items, i, exp);
        if err.Some? {
          return Fail(InvalidResults(err.value));
        }
        exp := exp + [entry];
      }
      ExpectedErrorIff(v);
      assert exp == StoredExpected(items);
      var failure := server.Submit(PostExpectedResults(exp));
      if failure.Some? {
        return Fail(Failed(failure.value));
      }
      expectedResults := ListOfDicts(exp);
      return Pass;
    }

    /**
     * add_samples: the first row of the array is the header; the rows under
     * it are encoded and uploaded in chunks of 5000, in order.
     */
    method AddSamples(samples: seq<NpToDict.Row>) returns (r: Result<bool, Error>, ghost progress: seq<nat>)
      requires forall k | 0 <= k < |samples| :: |samples[k]| == |samples[0]|
      modifies this, server
      ensures server.project.None? ==> r == Err(NoProject)
      ensures server.project.Some? ==> State() == Refreshed(server.project.value, old(State()))
      ensures r == Err(NotSet) <==> server.project.Some? && !Truthy(blockStructure)
      ensures r.Ok? ==> r.value && Levels(blockStructure).Some? && |samples| > 0
      ensures r.Ok? ==>
        var bs := Levels(blockStructure).value;
        AllPresent(Required(bs), samples[0]) && |bs| > 0 &&
        NpToDict.AllReadable(bs, Positions(Required(bs), samples[0]), samples[1..]) &&
        server.accepted == old(server.accepted) + NpRequests(bs, samples[1..], Positions(Required(bs), samples[0])) &&
        progress == Progress(Chunks(samples[1..], CHUNK_SIZE))
      ensures r.Err? && r.error.MissingLabel? ==>
        Levels(blockStructure).Some? && |samples| > 0 && ReportsMissing(Levels(blockStructure).value, samples[0], r.error)
      ensures r.Err? && !r.error.Failed? ==> server.accepted == old(server.accepted)
      ensures r == Err(Malformed) <==>
        server.project.Some? && Truthy(blockStructure) && (Levels(blockStructure).None? || |samples| == 0)
      ensures server.project.Some? && Truthy(blockStructure) && Levels(blockStructure).Some? && |samples| > 0 ==>
        var bs := Levels(blockStructure).value;
        (!AllPresent(Required(bs), samples[0]) ==> ReportsMissing(bs, samples[0], r.error)) &&
        (AllPresent(Required(bs), samples[0]) ==>
          (r == Ok(true) <==> NoFailure(old(server.failures), old(server.calls), |Chunks(samples[1..], CHUNK_SIZE)|)))
      ensures r.Err? && r.error.Failed? ==>
        Levels(blockStructure).Some? && |samples| > 0 &&
        var bs := Levels(blockStructure).value;
        var idx := Positions(Required(bs), samples[0]);
        |bs| > 0 && NpToDict.AllReadable(bs, idx, samples[1..]) &&
        exists k | 0 <= k < |Chunks(samples[1..], CHUNK_SIZE)| ::
          FirstFailure(old(server.failures), old(server.calls), k) &&
          r == Err(Failed(old(server.failures)[old(server.calls) + k])) &&
          server.accepted == old(server.accepted) + NpRequests(bs, samples[1..], idx)[..k]
      ensures server.Observed() == old(server.Observed()) && server.failures == old(server.failures)
    {
      progress := [];
      var bsv := GetBlockStructure();
      if bsv.Err? {
        return Err(bsv.error), progress;
      }
      var typed := Levels(blockStructure);
      if typed.None? {
        return Err(Malformed), progress;
      }
      var bs := typed.value;
      if |samples| == 0 || |bs| == 0 {
        return Err(Malformed), progress;
      }
      var sent;
      sent, progress := UploadSamples(server, bs, samples);
      if sent.Fail? {
        return Err(sent.error), progress;
      }
      return Ok(true), progress;
    }

    /**
     * add_samples_pd: the rows of the frame are encoded and uploaded in
     * chunks of 5000, in order; a missing label stops the first chunk.
     */
    method AddSamplesPd(f: DfToDictTree.Frame) returns (r: Result<bool, Error>, ghost progress: seq<nat>)
      requires DfToDictTree.Rectangular(f)
      modifies this, server
      ensures server.project.None? ==> r == Err(NoProject)
      ensures server.project.Some? ==> State() == Refreshed(server.project.value, old(State()))
      ensures r == Err(NotSet) <==> server.project.Some? && !Truthy(blockStructure)
      ensures r.Ok? ==> r.value && Levels(blockStructure).Some?
      ensures r.Ok? && f.data != [] ==>
        var bs := Levels(blockStructure).value;
        AllPresent(Required(bs), f.columns) &&
        server.accepted == old(server.accepted) + DfRequests(bs, f) &&
        progress == Progress(Chunks(f.data, CHUNK_SIZE))
      ensures r.Ok? && f.data == [] ==> server.accepted == old(server.accepted) && progress == []
      ensures r.Err? && r.error.MissingLabel? ==>
        f.data != [] && Levels(blockStructure).Some? && ReportsMissing(Levels(blockStructure).value, f.columns, r.error)
      ensures r.Err? && !r.error.Failed? ==> server.accepted == old(server.accepted)
      ensures r == Err(Malformed) <==> server.project.Some? && Truthy(blockStructure) && Levels(blockStructure).None?
      ensures server.project.Some? && Truthy(blockStructure) && Levels(blockStructure).Some? ==>
        var bs := Levels(blockStructure).value;
        (f.data == [] ==> r == Ok(true)) &&
        (f.data != [] && !AllPresent(Required(bs), f.columns) ==> ReportsMissing(bs, f.columns, r.error)) &&
        (f.data != [] && AllPresent(Required(bs), f.columns) ==>
          (r == Ok(true) <==> NoFailure(old(server.failures), old(server.calls), |Chunks(f.data, CHUNK_SIZE)|)))
      ensures r.Err? && r.error.Failed? ==>
        Levels(blockStructure).Some? &&
        var bs := Levels(blockStructure).value;
        AllPresent(Required(bs), f.columns) &&
        exists k | 0 <= k < |Chunks(f.data, CHUNK_SIZE)| ::
          FirstFailure(old(server.failures), old(server.calls), k) &&
          r == Err(Failed(old(server.failures)[old(server.calls) + k])) &&
          server.accepted == old(server.accepted) + DfRequests(bs, f)[..k]
      ensures server.Observed() == old(server.Observed()) && server.failures == old(server.failures)
    {
      progress := [];
      var bsv := GetBlockStructure();
      if bsv.Err? {
        return Err(bsv.error), progress;
      }
      var typed := Levels(blockStructure);
      if typed.None? {
        return Err(Malformed), progress;
      }
      var sent;
      sent, progress := UploadDf(server, typed.value, f);
      if sent.Fail? {
        return Err(sent.error), progress;
      }
      return Ok(true), progress;
    }

    /**
     * get_model: the handle of the first listed model with that name, None
     * when no model has it or the listing is an empty string or dict;
     * reading any other listing that is not a list of models fails.
     */
    method GetModel(modelName: Value) returns (r: Result<Option<ModelRef>, Error>)
      modifies this
      ensures server.project.None? ==> r == Err(NoProject) && State() == old(State())
      ensures server.project.Some? ==> State() == Refreshed(server.project.value, old(State()))
      ensures r == Ok(None) ==> NoModelIn(models, modelName)
      ensures server.project.Some? && EmptyIterable(models) ==> r == Ok(None)
      ensures r.Ok? && r.value.Some? ==>
        models.List? && exists i :: FirstModel(models.items, modelName, i) && r.value.value == Handle(models.items[i].fields)
      ensures r.Ok? && r.value.Some? ==> r.value.value.name == modelName
      ensures server.project.Some? && r.Err? ==>
        r.error == Malformed &&
        ((!models.List? && !EmptyIterable(models)) || exists i :: 0 <= i < |models.items| && Unlisted(models.items, modelName, i))
    {
      var info := Refresh();
      if info.Err? {
        return Err(info.error);
      }
      if EmptyIterable(models) {
        return Ok(None);
      }
      if !models.List? {
        return Err(Malformed);
      }
      var items := models.items;
      for i := 0 to |items|
        invariant forall j | 0 <= j < i :: Listed(items[j]) && items[j].fields["name"] != modelName
      {
        var model := items[i];
        if !Listed(model) {
          assert Unlisted(items, modelName, i);
          return Err(Malformed);
        }
        if model.fields["name"] == modelName {
          return Ok(Some(Handle(model.fields)));
        }
      }
      return Ok(None);
    }

    /** create_model: a falsy name is refused; otherwise the model is posted and its handle returned. */
    method CreateModel(modelName: Value) returns (r: Result<ModelRef, Error>)
      modifies server
      ensures !Truthy(modelName) ==> r == Err(NoName) && server.accepted == old(server.accepted)
      ensures Truthy(modelName) ==> (r.Ok? <==> old(server.calls) !in old(server.failures))
      ensures r.Ok? ==> r.value == ModelRef(modelName, modelName)
      ensures r.Ok? ==> server.accepted == old(server.accepted) + [PostModel(modelName)]
      ensures r.Err? ==> server.accepted == old(server.accepted)
      ensures State() == old(State())
      ensures server.Observed() == old(server.Observed()) && server.failures == old(server.failures)
    {
      if !Truthy(modelName) {
        return Err(NoName);
      }
      var failure := server.Submit(PostModel(modelName));
      if failure.Some? {
        return Err(Failed(failure.value));
      }
      return Ok(ModelRef(modelName, modelName));
    }

    /**
     * delete_model: the name (or the handle's name) must be a non-empty
     * string naming a listed model; the first such model is deleted by its
     * own id, as intended (DeleteAsWritten is the request as written). A
     * delete that does not reach the backend is ignored.
     */
    method DeleteModel(arg: ModelArg) returns (r: Outcome<Error>)
      modifies this, server
      ensures !arg.Name().Str? ==> r == Fail(NameNotString)
      ensures arg.Name() == Str("") ==> r == Fail(NoName)
      ensures !NameGiven(arg.Name()) ==> State() == old(State()) && server.calls == old(server.calls)
      ensures NameGiven(arg.Name()) && server.project.None? ==> r == Fail(NoProject) && State() == old(State())
      ensures NameGiven(arg.Name()) && server.project.Some? ==> State() == Refreshed(server.project.value, old(State()))
      ensures NameGiven(arg.Name()) && server.project.Some? && NoModelIn(models, arg.Name()) ==>
        r == Fail(Unknown(arg.Name().s))
      ensures NameGiven(arg.Name()) && server.project.Some? && !models.List? && !EmptyIterable(models) ==> r == Fail(Malformed)
      ensures NameGiven(arg.Name()) && server.project.Some? && models.List? && (exists i :: Unlisted(models.items, arg.Name(), i)) ==>
        r == Fail(Malformed)
      ensures NameGiven(arg.Name()) && server.project.Some? && models.List? && (exists i :: FirstModel(models.items, arg.Name(), i)) ==>
        server.calls == old(server.calls) + 1 && (r.Pass? <==> !Rejects(old(server.failures), old(server.calls)))
      ensures r.Pass? ==>
        NameGiven(arg.Name()) && models.List? &&
        exists i :: FirstModel(models.items, arg.Name(), i) &&
          server.accepted == if old(server.calls) in old(server.failures) then old(server.accepted)
                             else old(server.accepted) + [Request.DeleteModel(models.items[i].fields["id"])]
      ensures arg.Name().Str? && r == Fail(Unknown(arg.Name().s)) ==> NoModelIn(models, arg.Name())
      ensures r.Fail? ==> server.accepted == old(server.accepted)
      ensures server.Observed() == old(server.Observed()) && server.failures == old(server.failures)
    {
      var n := arg.Name();
      if !n.Str? {
        return Fail(NameNotString);
      }
      if n.s == "" {
        return Fail(NoName);
      }
      var found := GetModel(n);
      if found.Err? {
        return Fail(found.error);
      }
      if found.value.None? {
        return Fail(Unknown(n.s));
      }
      var failure := server.Submit(Request.DeleteModel(found.value.value.id));
      if failure == Some(Rejected) {
        return Fail(Failed(Rejected));
      }
      return Pass;
    }

    /** get_selection: the first listed selection with that name, None when there is none. */
    method GetSelection(selectionName: Value) returns (r: Option<Entity>)
      ensures r.Some? ==> exists i :: FirstNamed(server.selections, selectionName, i) && server.selections[i] == r.value
      ensures r.None? ==> NoneNamed(server.selections, selectionName)
    {
      var selections := server.selections;
      for i := 0 to |selections|
        invariant forall j | 0 <= j < i :: selections[j].name != selectionName
      {
        if selections[i].name == selectionName {
          return Some(selections[i]);
        }
      }
      return None;
    }

    /**
     * delete_selection: the name (or the selection's name) must be a
     * non-empty string naming a listed selection; the first such selection
     * is deleted. A delete that does not reach the backend is ignored.
     */
    method DeleteSelection(arg: SelectionArg) returns (r: Outcome<Error>)
      modifies server
      ensures !arg.Name().Str? ==> r == Fail(NameNotString)
      ensures arg.Name() == Str("") ==> r == Fail(NoName)
      ensures !NameGiven(arg.Name()) ==> server.calls == old(server.calls)
      ensures NameGiven(arg.Name()) && NoneNamed(server.selections, arg.Name()) ==> r == Fail(Unknown(arg.Name().s))
      ensures NameGiven(arg.Name()) && (exists i :: FirstNamed(server.selections, arg.Name(), i)) ==>
        server.calls == old(server.calls) + 1 && (r.Pass? <==> !Rejects(old(server.failures), old(server.calls)))
      ensures r.Pass? ==>
        NameGiven(arg.Name()) &&
        exists i :: FirstNamed(server.selections, arg.Name(), i) &&
          server.accepted == if old(server.calls) in old(server.failures) then old(server.accepted)
                             else old(server.accepted) + [Request.DeleteSelection(server.selections[i].id)]
      ensures arg.Name().Str? && r == Fail(Unknown(arg.Name().s)) ==> NoneNamed(server.selections, arg.Name())
      ensures r.Fail? ==> server.accepted == old(server.accepted)
      ensures State() == old(State())
      ensures server.Observed() == old(server.Observed()) && server.failures == old(server.failures)
    {
      var n := arg.Name();
      if !n.Str? {
        return Fail(NameNotString);
      }
      if n.s == "" {
        return Fail(NoName);
      }
      var found := GetSelection(n);
      if found.None? {
        return Fail(Unknown(n.s));
      }
      var failure := server.Submit(Request.DeleteSelection(found.value.id));
      if failure == Some(Rejected) {
        return Fail(Failed(Rejected));
      }
      return Pass;
    }

    /** get_tag: the first listed tag with that name, None when there is none. */
    method GetTag(tagName: Value) returns (r: Option<Entity>)
      ensures r.Some? ==> exists i :: FirstNamed(server.tags, tagName, i) && server.tags[i] == r.value
      ensures r.None? ==> NoneNamed(server.tags, tagName)
    {
      var tags := server.tags;
      for i := 0 to |tags|
        invariant forall j | 0 <= j < i :: tags[j].name != tagName
      {
        if tags[i].name == tagName {
          return Some(tags[i]);
        }
      }
      return None;
    }

    /**
     * get_numpy: the header row stacked on the decoded sample tree. As
     * written, a project whose tree is empty cannot be stacked.
     */
    method GetNumpy() returns (r: Result<Table<Value>, Error>)
      modifies this
      ensures server.project.None? ==> r == Err(NoProject)
      ensures server.project.Some? ==> State() == Refreshed(server.project.value, old(State()))
      ensures r == Err(NotSet) <==> server.project.Some? && !Truthy(blockStructure)
      ensures r.Ok? ==>
        Levels(blockStructure).Some? &&
        (forall k | 0 <= k < |server.sampleTree| :: Conforms(Levels(blockStructure).value, 0, server.sampleTree[k]))
      ensures r.Ok? ==>
        r == VStack(Header(Levels(blockStructure).value), ForestData(Levels(blockStructure).value, 0, server.sampleTree))
      ensures r.Ok? ==> r.value[0] == HeaderFields(Header(Levels(blockStructure).value))
      ensures server.project.Some? && Truthy(blockStructure) && Levels(blockStructure).Some? && server.sampleTree == [] ==>
        r == Err(Stack)
      ensures server.project.Some? && Truthy(blockStructure) && Levels(blockStructure).None? ==> r == Err(Malformed)
      ensures server.project.Some? && Truthy(blockStructure) && Levels(blockStructure).Some? ==>
        var bs := Levels(blockStructure).value;
        if forall k | 0 <= k < |server.sampleTree| :: Conforms(bs, 0, server.sampleTree[k])
        then r == VStack(Header(bs), ForestData(bs, 0, server.sampleTree))
        else r == Err(Malformed)
    {
      var bsv := GetBlockStructure();
      if bsv.Err? {
        return Err(bsv.error);
      }
      var typed := Levels(blockStructure);
      if typed.None? {
        return Err(Malformed);
      }
      var bs := typed.value;
      var tree := server.sampleTree;
      var columns := HeaderRow(bs);
      if !(forall k | 0 <= k < |tree| :: Conforms(bs, 0, tree[k])) {
        return Err(Malformed);
      }
      var data := TreeToArray.TreeToArray(bs, tree);
      assert |columns| > 0 by {
        assert |bs| > 0;
        assert Width(bs) >= 1;
      }
      return VStack(columns, data);
    }
  }
}
