/**
 * Debiai_model: a model of a project. Results reach the backend as one
 * nested dict per upload, keyed by block keys level after level and holding
 * one list of result values per sample (add_results_dict); a DataFrame of
 * results is converted to that dict chunk by chunk (add_results_df).
 */
module Model {
  import opened Wrappers
  import opened Values
  import opened Chunking
  import opened Backend
  import ProjectChecks
  import IndexMap
  import Project
  import DfToDictTree
  import Schema

  /** The errors the model methods raise. */
  datatype ModelError =
    | NoProject                      // get_project answered 404
    | NoExpectedResults              // "The project expected results need to be specified ..."
    | NotADict                       // "Results must be of type dict"
    | MissingFromOrder(name: Value)  // "The expected result '...' is missing from the expected_results_order Array"
    | NotExpected(name: Value)       // "The given expected result '...' is not an expected result"
    | WrongWidth(path: seq<string>, given: nat, expected: nat)
    | Malformed                      // data the source cannot read (a KeyError, TypeError or IndexError)
    | Failed(failure: Failure)       // the upload failed
  {
    /** The text of a width error: the key path joined by " / ", then the two counts. */
    function Message(): string
      requires WrongWidth?
    {
      "in : " + JoinPath(path) + ", " + Decimal(given) + " value where given but " + Decimal(expected) + "where expected"
    }
  }

  /** The keys of a path joined by " / ". */
  function JoinPath(ps: seq<string>): string
  {
    if |ps| == 0 then ""
    else if |ps| == 1 then ps[0]
    else JoinPath(ps[..|ps| - 1]) + " / " + ps[|ps| - 1]
  }

  // The expected results and the order list.

  /**
   * The names of the expected results, in their declared order; none for an
   * empty string or dict, which the source's loops iterate zero times; None
   * when an entry is not a dict with a name, or the value cannot be iterated
   * as a list of entries.
   */
  function ExpectedNames(v: Value): (r: Option<seq<Value>>)
    ensures Schema.EmptyIterable(v) ==> r == Some([])
    ensures r.Some? && !Schema.EmptyIterable(v) ==>
      v.List? && |r.value| == |v.items| &&
      forall i | 0 <= i < |v.items| :: v.items[i].Object? && "name" in v.items[i].fields && r.value[i] == v.items[i].fields["name"]
    ensures r.None? ==> !Schema.EmptyIterable(v) && (v.List? ==> exists i | 0 <= i < |v.items| :: !(v.items[i].Object? && "name" in v.items[i].fields))
  {
    if Schema.EmptyIterable(v) then Some([])
    else if v.List? && forall i | 0 <= i < |v.items| :: v.items[i].Object? && "name" in v.items[i].fields then
      Some(seq(|v.items|, i requires 0 <= i < |v.items| && v.items[i].Object? && "name" in v.items[i].fields =>
        v.items[i].fields["name"]))
    else None
  }

  /**
   * The expected results set_expected_results stores give, as the default
   * order, the names of its argument in their order, with no name twice.
   */
  lemma {:induction false} StoredNamesOrder(v: Value)
    requires ProjectChecks.ValidExpected(v)
    ensures ExpectedNames(ProjectChecks.ListOfDicts(ProjectChecks.StoredExpected(v.items))).Some?
    ensures var names := ExpectedNames(ProjectChecks.ListOfDicts(ProjectChecks.StoredExpected(v.items))).value;
      |names| == |v.items| &&
      (forall i | 0 <= i < |v.items| :: names[i] == v.items[i].fields["name"]) &&
      (forall i, j | 0 <= i < j < |names| :: names[i] != names[j])
  {
    var stored := ProjectChecks.ListOfDicts(ProjectChecks.StoredExpected(v.items));
    ProjectChecks.StoredExpectedNames(v);
    forall i | 0 <= i < |stored.items| ensures stored.items[i].Object? && "name" in stored.items[i].fields {
      ProjectChecks.CanonicalKeys(v.items[i].fields);
    }
  }

  /** The index of the first element of xs that ys lacks, |xs| when there is none. */
  function FirstNotIn(xs: seq<Value>, ys: seq<Value>): (k: nat)
    ensures k <= |xs|
    ensures forall j | 0 <= j < k :: xs[j] in ys
    ensures k < |xs| ==> xs[k] !in ys
  {
    if xs == [] then 0
    else if xs[0] !in ys then 0
    else 1 + FirstNotIn(xs[1..], ys)
  }

  /**
   * The order checks of add_results_dict: first an expected result missing
   * from the order list, then a listed name that is no expected result.
   */
  function OrderError(names: seq<Value>, order: seq<Value>): Option<ModelError>
  {
    var i := FirstNotIn(names, order);
    var j := FirstNotIn(order, names);
    if i < |names| then Some(MissingFromOrder(names[i]))
    else if j < |order| then Some(NotExpected(order[j]))
    else None
  }

  /** The two loops of add_results_dict over the order list. */
  method CheckOrder(names: seq<Value>, order: seq<Value>) returns (e: Option<ModelError>)
    ensures e == OrderError(names, order)
    ensures e.None? <==>
      (forall i | 0 <= i < |names| :: names[i] in order) && (forall j | 0 <= j < |order| :: order[j] in names)
  {
    for i := 0 to |names|
      invariant forall m | 0 <= m < i :: names[m] in order
    {
      if names[i] !in order {
        assert FirstNotIn(names, order) == i;
        return Some(MissingFromOrder(names[i]));
      }
    }
    for j := 0 to |order|
      invariant forall m | 0 <= m < j :: order[m] in names
    {
      var expected := false;
      for m := 0 to |names|
        invariant expected <==> exists p | 0 <= p < m :: names[p] == order[j]
      {
        if order[j] == names[m] {
          expected := true;
        }
      }
      if !expected {
        assert FirstNotIn(order, names) == j;
        return Some(NotExpected(order[j]));
      }
    }
    return None;
  }

  // The width check of a results dict.

  /** The number of values (or entries) of a block: Python's len(). */
  function Len(t: ResultTree): nat
  {
    match t
    case Branch(es) => |es|
    case Leaf(vs) => |vs|
  }

  /**
   * __checkResultDict on a block at `level` under the key path `path`: at
   * the sample level the block must hold `width` values; above it every
   * entry is checked in turn. Iterating a list above the sample level is
   * only harmless when it is empty.
   */
  function CheckBlock(t: ResultTree, level: nat, sampleIndex: int, width: nat, path: seq<string>): Option<ModelError>
    decreases t, 1
  {
    if level == sampleIndex then
      (if Len(t) != width then Some(WrongWidth(path, Len(t), width)) else None)
    else match t
      case Leaf(vs) => if vs == [] then None else Some(Malformed)
      case Branch(es) => CheckEntries(t, 0, level + 1, sampleIndex, width, path)
  }

  /** The entries of a dict from `from` on, each checked under its own key; the first error stops the walk. */
  function CheckEntries(t: ResultTree, from: nat, level: nat, sampleIndex: int, width: nat, path: seq<string>): Option<ModelError>
    requires t.Branch? && from <= |t.entries|
    decreases t, 0, |t.entries| - from
  {
    if from == |t.entries| then None
    else
      var e := t.entries[from];
      match CheckBlock(e.sub, level, sampleIndex, width, path + [ToStr(e.key)])
      case Some(err) => Some(err)
      case None => CheckEntries(t, from + 1, level, sampleIndex, width, path)
  }

  /** Following the keys (as str() prints them) from t leads to sub. */
  predicate Reaches(t: ResultTree, keys: seq<string>, sub: ResultTree)
    decreases |keys|
  {
    if keys == [] then sub == t
    else t.Branch? && exists i | 0 <= i < |t.entries| ::
      ToStr(t.entries[i].key) == keys[0] && Reaches(t.entries[i].sub, keys[1..], sub)
  }

  lemma {:induction false} CheckBlockSound(t: ResultTree, level: nat, sampleIndex: int, width: nat, path: seq<string>,
                                           keys: seq<string>, sub: ResultTree)
    requires CheckBlock(t, level, sampleIndex, width, path) == None
    requires level + |keys| == sampleIndex && Reaches(t, keys, sub)
    ensures Len(sub) == width
    decreases t, 1
  {
    if keys != [] {
      var i :| 0 <= i < |t.entries| && ToStr(t.entries[i].key) == keys[0] && Reaches(t.entries[i].sub, keys[1..], sub);
      CheckEntriesSound(t, 0, level + 1, sampleIndex, width, path, i, keys[1..], sub);
    }
  }

  lemma {:induction false} CheckEntriesSound(t: ResultTree, from: nat, level: nat, sampleIndex: int, width: nat, path: seq<string>,
                                             i: nat, keys: seq<string>, sub: ResultTree)
    requires t.Branch? && from <= i < |t.entries|
    requires CheckEntries(t, from, level, sampleIndex, width, path) == None
    requires level + |keys| == sampleIndex && Reaches(t.entries[i].sub, keys, sub)
    ensures Len(sub) == width
    decreases t, 0, |t.entries| - from
  {
    var e := t.entries[from];
    if from == i {
      CheckBlockSound(e.sub, level, sampleIndex, width, path + [ToStr(e.key)], keys, sub);
    } else {
      CheckEntriesSound(t, from + 1, level, sampleIndex, width, path, i, keys, sub);
    }
  }

  lemma {:induction false} CheckBlockWitness(t: ResultTree, level: nat, sampleIndex: int, width: nat, path: seq<string>)
    requires CheckBlock(t, level, sampleIndex, width, path).Some?
    requires CheckBlock(t, level, sampleIndex, width, path).value.WrongWidth?
    ensures var e := CheckBlock(t, level, sampleIndex, width, path).value;
      e.expected == width && e.given != width &&
      |path| <= |e.path| && e.path[..|path|] == path && level + |e.path| - |path| == sampleIndex &&
      exists sub :: Reaches(t, e.path[|path|..], sub) && Len(sub) == e.given
    decreases t, 1
  {
    var e := CheckBlock(t, level, sampleIndex, width, path).value;
    if level == sampleIndex {
      assert e.path[|path|..] == [];
      assert Reaches(t, e.path[|path|..], t);
    } else {
      CheckEntriesWitness(t, 0, level + 1, sampleIndex, width, path);
    }
  }

  lemma {:induction false} CheckEntriesWitness(t: ResultTree, from: nat, level: nat, sampleIndex: int, width: nat, path: seq<string>)
    requires t.Branch? && from <= |t.entries|
    requires CheckEntries(t, from, level, sampleIndex, width, path).Some?
    requires CheckEntries(t, from, level, sampleIndex, width, path).value.WrongWidth?
    ensures var e := CheckEntries(t, from, level, sampleIndex, width, path).value;
      e.expected == width && e.given != width &&
      |path| < |e.path| && e.path[..|path|] == path && level + |e.path| - |path| == sampleIndex + 1 &&
      exists sub :: Reaches(t, e.path[|path|..], sub) && Len(sub) == e.given
    decreases t, 0, |t.entries| - from
  {
    var entry := t.entries[from];
    var p := path + [ToStr(entry.key)];
    var inner := CheckBlock(entry.sub, level, sampleIndex, width, p);
    if inner.Some? {
      CheckBlockWitness(entry.sub, level, sampleIndex, width, p);
      var e := inner.value;
      assert e.path[..|path|] == path by {
        assert e.path[..|path|] == e.path[..|p|][..|path|];
      }
      var sub :| Reaches(entry.sub, e.path[|p|..], sub) && Len(sub) == e.given;
      var keys := e.path[|path|..];
      assert keys[0] == ToStr(entry.key) by {
        assert keys[0] == e.path[..|p|][|path|];
      }
      assert keys[1..] == e.path[|p|..];
      assert Reaches(t, keys, sub);
    } else {
      CheckEntriesWitness(t, from + 1, level, sampleIndex, width, path);
    }
  }

  /**
   * The check of a whole results dict: when it passes, every block reached
   * from the root by one key per level down to the sample level holds
   * `width` values; when it reports a width error, the path it names leads
   * from the root to a sample block with that other number of values.
   */
  lemma {:induction false} ResultsCheck(t: ResultTree, sampleIndex: int, width: nat)
    requires t.Branch?
    ensures CheckEntries(t, 0, 0, sampleIndex, width, []) == None ==>
      forall keys, sub | 0 < |keys| == sampleIndex + 1 && Reaches(t, keys, sub) :: Len(sub) == width
    ensures var e := CheckEntries(t, 0, 0, sampleIndex, width, []);
      e.Some? && e.value.WrongWidth? ==>
        e.value.expected == width && e.value.given != width && |e.value.path| == sampleIndex + 1 &&
        exists sub :: Reaches(t, e.value.path, sub) && Len(sub) == e.value.given
  {
    if CheckEntries(t, 0, 0, sampleIndex, width, []) == None {
      forall keys, sub | 0 < |keys| == sampleIndex + 1 && Reaches(t, keys, sub) ensures Len(sub) == width {
        var i :| 0 <= i < |t.entries| && ToStr(t.entries[i].key) == keys[0] && Reaches(t.entries[i].sub, keys[1..], sub);
        CheckEntriesSound(t, 0, 0, sampleIndex, width, [], i, keys[1..], sub);
      }
    }
    var e := CheckEntries(t, 0, 0, sampleIndex, width, []);
    if e.Some? && e.value.WrongWidth? {
      CheckEntriesWitness(t, 0, 0, sampleIndex, width, []);
      assert e.value.path[0..] == e.value.path;
    }
  }

  /** len(v): a string's characters, a list's items, a dict's keys; None where len raises a TypeError. */
  function SizeOf(v: Value): (r: Option<nat>)
    ensures r.Some? <==> v.Str? || v.List? || v.Object?
    ensures v.List? ==> r == Some(|v.items|)
  {
    match v
    case Str(s) => Some(|s|)
    case List(items) => Some(|items|)
    case Object(fields) => Some(|fields|)
    case _ => None
  }

  /**
   * What add_results_dict checks on the refreshed attributes before its
   * upload, in order: the order list it uploads, or the error it raises.
   */
  function DictCheck(s: Project.Infos, results: ResultTree, order: Option<seq<Value>>): Result<seq<Value>, ModelError>
  {
    if s.expectedResults == Null then Err(NoExpectedResults)
    else if !results.Branch? then Err(NotADict)
    else match ExpectedNames(s.expectedResults)
      case None => Err(Malformed)
      case Some(names) =>
        if order.Some? && OrderError(names, order.value).Some? then Err(OrderError(names, order.value).value)
        else
          var ord := if order.Some? then order.value else names;
          match SizeOf(s.blockStructure)
          case None => Err(Malformed)
          case Some(size) =>
            match CheckEntries(results, 0, 0, size - 1, |ord|, [])
            case Some(e) => Err(e)
            case None => Ok(ord)
  }

  /**
   * Stored expected results of "" or {} give no names, and the block
   * structure is read only through len(): an empty results dict then passes
   * every check with the empty order list, whether the structure is a
   * string, a list or a dict.
   */
  lemma {:induction false} EmptyExpectedPasses(s: Project.Infos)
    requires Schema.EmptyIterable(s.expectedResults)
    requires s.blockStructure.Str? || s.blockStructure.List? || s.blockStructure.Object?
    ensures DictCheck(s, Branch([]), None) == Ok([])
  {
  }

  /**
   * The outcome of add_results_dict once the attributes are refreshed to s:
   * a failed check raises and sends nothing; otherwise one upload of the
   * dict and its order, which the server accepts or fails.
   */
  predicate DictOutcome(s: Project.Infos, id: Value, results: ResultTree, order: Option<seq<Value>>,
                        calls: nat, failures: map<nat, Failure>, before: seq<Request>, after: seq<Request>,
                        r: Result<bool, ModelError>)
  {
    match DictCheck(s, results, order)
    case Err(e) => r == Err(e) && after == before
    case Ok(ord) =>
      if calls in failures then r == Err(Failed(failures[calls])) && after == before
      else r == Ok(true) && after == before + [PostModelResults(id, results, ord)]
  }

  /** Only uploads of this model's results were added to the log. */
  predicate OnlyResults(before: seq<Request>, after: seq<Request>, id: Value)
  {
    before <= after && forall i | |before| <= i < |after| :: after[i].PostModelResults? && after[i].modelId == id
  }

  lemma {:induction false} OnlyResultsTrans(a: seq<Request>, b: seq<Request>, c: seq<Request>, id: Value)
    requires OnlyResults(a, b, id) && OnlyResults(b, c, id)
    ensures OnlyResults(a, c, id)
  {
    forall i | |a| <= i < |c| ensures c[i].PostModelResults? && c[i].modelId == id {
      if i < |b| {
        assert c[i] == b[i];
      }
    }
  }

  lemma {:induction false} DictOutcomeLogs(s: Project.Infos, id: Value, results: ResultTree, order: Option<seq<Value>>,
                                          calls: nat, failures: map<nat, Failure>, before: seq<Request>, after: seq<Request>,
                                          r: Result<bool, ModelError>)
    requires DictOutcome(s, id, results, order, calls, failures, before, after, r)
    ensures OnlyResults(before, after, id)
    ensures r.Ok? ==> r.value
  {
  }

  // The DataFrame conversion.

  /** Every row has w cells and every column read is one of them. */
  predicate Wide(rows: seq<seq<Cell>>, w: nat)
  {
    forall k | 0 <= k < |rows| :: |rows[k]| == w
  }

  predicate Below(cols: seq<nat>, w: nat)
  {
    forall c | 0 <= c < |cols| :: cols[c] < w
  }

  /** A row's result values: the cells of the result columns, in expected-results order. */
  function ResultValues(row: seq<Cell>, resCols: seq<nat>): (vs: seq<Value>)
    requires forall c | 0 <= c < |resCols| :: resCols[c] < |row|
    ensures |vs| == |resCols|
  {
    seq(|resCols|, j requires 0 <= j < |resCols| => CellValue(row[resCols[j]]))
  }

  /** The index of the entry with that key, |es| when there is none. */
  function KeyIndex(es: seq<ResultEntry>, key: Cell): (i: nat)
    ensures i <= |es|
    ensures i < |es| ==> es[i].key == key
    ensures forall j | 0 <= j < i :: es[j].key != key
  {
    if es == [] then 0
    else if es[0].key == key then 0
    else 1 + KeyIndex(es[1..], key)
  }

  /** dict[key] = sub: a present key keeps its place and takes the new value; a new key goes last. */
  function Put(es: seq<ResultEntry>, key: Cell, sub: ResultTree): seq<ResultEntry>
  {
    var i := KeyIndex(es, key);
    if i < |es| then es[i := ResultEntry(key, sub)] else es + [ResultEntry(key, sub)]
  }

  predicate DistinctKeys(es: seq<ResultEntry>)
  {
    forall i, j | 0 <= i < j < |es| :: es[i].key != es[j].key
  }

  /** Storing under a key keeps the keys distinct. */
  lemma {:induction false} PutDistinct(es: seq<ResultEntry>, key: Cell, sub: ResultTree)
    requires DistinctKeys(es)
    ensures DistinctKeys(Put(es, key, sub))
  {
  }

  /** After storing under a key, the key is found and holds the stored value. */
  lemma {:induction false} PutFound(es: seq<ResultEntry>, key: Cell, sub: ResultTree)
    ensures KeyIndex(Put(es, key, sub), key) < |Put(es, key, sub)|
    ensures Put(es, key, sub)[KeyIndex(Put(es, key, sub), key)].sub == sub
  {
    var p := Put(es, key, sub);
    var i := KeyIndex(es, key);
    KeyIndexFound(p, i);
  }

  /** Storing under a key leaves every other key where it was, with its value. */
  lemma {:induction false} PutOther(es: seq<ResultEntry>, key: Cell, sub: ResultTree, c: Cell)
    requires c != key
    ensures KeyIndex(es, c) < |es| <==> KeyIndex(Put(es, key, sub), c) < |Put(es, key, sub)|
    ensures KeyIndex(es, c) < |es| ==>
      KeyIndex(Put(es, key, sub), c) == KeyIndex(es, c) && Put(es, key, sub)[KeyIndex(es, c)] == es[KeyIndex(es, c)]
  {
    KeyIndexSame(es, Put(es, key, sub), c);
  }

  /** The first index of a key is the position of an entry carrying it when no earlier entry does. */
  lemma {:induction false} KeyIndexFound(es: seq<ResultEntry>, m: nat)
    requires m < |es| && forall j | 0 <= j < m :: es[j].key != es[m].key
    ensures KeyIndex(es, es[m].key) == m
  {
  }

  /** A longer list that carries key c exactly where the shorter one does finds it at the same place. */
  lemma {:induction false} KeyIndexSame(es: seq<ResultEntry>, p: seq<ResultEntry>, c: Cell)
    requires |es| <= |p|
    requires forall j | 0 <= j < |es| :: es[j].key == c <==> p[j].key == c
    requires forall j | |es| <= j < |p| :: p[j].key != c
    ensures KeyIndex(es, c) < |es| ==> KeyIndex(p, c) == KeyIndex(es, c)
    ensures KeyIndex(es, c) == |es| ==> KeyIndex(p, c) == |p|
  {
    var k := KeyIndex(es, c);
    if k < |es| {
      assert p[k].key == c;
    }
  }

  /** The last row carrying its key in that column: no later row has the same key. */
  predicate LastOfKey(rows: seq<seq<Cell>>, col: nat, k: nat, w: nat)
    requires Wide(rows, w) && col < w && k < |rows|
  {
    forall j | k < j < |rows| :: rows[j][col] != rows[k][col]
  }

  /**
   * The sample level of __pd_to_dict_recur: each row in turn stores its
   * result values under its sample key.
   */
  function SampleEntries(rows: seq<seq<Cell>>, keyCol: nat, resCols: seq<nat>, w: nat): seq<ResultEntry>
    requires Wide(rows, w) && keyCol < w && Below(resCols, w)
    decreases |rows|
  {
    if rows == [] then []
    else
      var last := rows[|rows| - 1];
      Put(SampleEntries(rows[..|rows| - 1], keyCol, resCols, w), last[keyCol], Leaf(ResultValues(last, resCols)))
  }

  /** Storing row by row keeps the sample keys distinct. */
  lemma {:induction false} SampleDistinct(rows: seq<seq<Cell>>, keyCol: nat, resCols: seq<nat>, w: nat)
    requires Wide(rows, w) && keyCol < w && Below(resCols, w)
    ensures DistinctKeys(SampleEntries(rows, keyCol, resCols, w))
    ensures forall i | 0 <= i < |SampleEntries(rows, keyCol, resCols, w)| :: SampleEntries(rows, keyCol, resCols, w)[i].sub.Leaf?
    decreases |rows|
  {
    if rows != [] {
      var n := |rows| - 1;
      SampleDistinct(rows[..n], keyCol, resCols, w);
      PutDistinct(SampleEntries(rows[..n], keyCol, resCols, w), rows[n][keyCol], Leaf(ResultValues(rows[n], resCols)));
    }
  }

  /** Row k's sample key has an entry. */
  lemma {:induction false} SampleHasKey(rows: seq<seq<Cell>>, keyCol: nat, resCols: seq<nat>, w: nat, k: nat)
    requires Wide(rows, w) && keyCol < w && Below(resCols, w) && k < |rows|
    ensures KeyIndex(SampleEntries(rows, keyCol, resCols, w), rows[k][keyCol]) < |SampleEntries(rows, keyCol, resCols, w)|
    decreases |rows|
  {
    var n := |rows| - 1;
    var es := SampleEntries(rows[..n], keyCol, resCols, w);
    var key := rows[n][keyCol];
    var leaf := Leaf(ResultValues(rows[n], resCols));
    if rows[k][keyCol] == key {
      PutFound(es, key, leaf);
    } else {
      assert k < n && rows[..n][k] == rows[k];
      SampleHasKey(rows[..n], keyCol, resCols, w, k);
      PutOther(es, key, leaf, rows[k][keyCol]);
    }
  }

  /** Entry i's key is the sample key of some row. */
  lemma {:induction false} SampleKeyOrigin(rows: seq<seq<Cell>>, keyCol: nat, resCols: seq<nat>, w: nat, i: nat)
    requires Wide(rows, w) && keyCol < w && Below(resCols, w) && i < |SampleEntries(rows, keyCol, resCols, w)|
    ensures exists k | 0 <= k < |rows| :: rows[k][keyCol] == SampleEntries(rows, keyCol, resCols, w)[i].key
    decreases |rows|
  {
    var n := |rows| - 1;
    var es := SampleEntries(rows[..n], keyCol, resCols, w);
    var key := rows[n][keyCol];
    var p := Put(es, key, Leaf(ResultValues(rows[n], resCols)));
    if p[i].key == key {
      assert rows[n][keyCol] == p[i].key;
    } else {
      assert i < |es| && p[i] == es[i];
      SampleKeyOrigin(rows[..n], keyCol, resCols, w, i);
      var k :| 0 <= k < n && rows[..n][k][keyCol] == es[i].key;
      assert rows[k] == rows[..n][k];
    }
  }

  /** The last row carrying a sample key is the one whose values that key holds. */
  lemma {:induction false} SampleLastValues(rows: seq<seq<Cell>>, keyCol: nat, resCols: seq<nat>, w: nat, k: nat)
    requires Wide(rows, w) && keyCol < w && Below(resCols, w) && k < |rows| && LastOfKey(rows, keyCol, k, w)
    ensures var es := SampleEntries(rows, keyCol, resCols, w);
      KeyIndex(es, rows[k][keyCol]) < |es| && es[KeyIndex(es, rows[k][keyCol])].sub == Leaf(ResultValues(rows[k], resCols))
    decreases |rows|
  {
    var n := |rows| - 1;
    var es := SampleEntries(rows[..n], keyCol, resCols, w);
    var key := rows[n][keyCol];
    var leaf := Leaf(ResultValues(rows[n], resCols));
    if k == n {
      PutFound(es, key, leaf);
    } else {
      assert rows[k][keyCol] != key;
      assert rows[..n][k] == rows[k];
      assert LastOfKey(rows[..n], keyCol, k, w);
      SampleLastValues(rows[..n], keyCol, resCols, w, k);
      PutOther(es, key, leaf, rows[k][keyCol]);
    }
  }

  /**
   * At the sample level there is one entry per distinct sample key, every
   * row's key has one, every entry comes from a row, and a key repeated by
   * several rows holds the result values of the last of them.
   */
  lemma {:induction false} SampleEntriesFacts(rows: seq<seq<Cell>>, keyCol: nat, resCols: seq<nat>, w: nat)
    requires Wide(rows, w) && keyCol < w && Below(resCols, w)
    ensures DistinctKeys(SampleEntries(rows, keyCol, resCols, w))
    ensures forall k | 0 <= k < |rows| ::
      KeyIndex(SampleEntries(rows, keyCol, resCols, w), rows[k][keyCol]) < |SampleEntries(rows, keyCol, resCols, w)|
    ensures forall i | 0 <= i < |SampleEntries(rows, keyCol, resCols, w)| ::
      exists k | 0 <= k < |rows| :: rows[k][keyCol] == SampleEntries(rows, keyCol, resCols, w)[i].key
    ensures forall k | 0 <= k < |rows| && LastOfKey(rows, keyCol, k, w) ::
      SampleEntries(rows, keyCol, resCols, w)[KeyIndex(SampleEntries(rows, keyCol, resCols, w), rows[k][keyCol])].sub ==
        Leaf(ResultValues(rows[k], resCols))
  {
    SampleDistinct(rows, keyCol, resCols, w);
    forall k | 0 <= k < |rows| ensures KeyIndex(SampleEntries(rows, keyCol, resCols, w), rows[k][keyCol]) < |SampleEntries(rows, keyCol, resCols, w)| {
      SampleHasKey(rows, keyCol, resCols, w, k);
    }
    forall i | 0 <= i < |SampleEntries(rows, keyCol, resCols, w)|
      ensures exists k | 0 <= k < |rows| :: rows[k][keyCol] == SampleEntries(rows, keyCol, resCols, w)[i].key
    {
      SampleKeyOrigin(rows, keyCol, resCols, w, i);
    }
    forall k | 0 <= k < |rows| && LastOfKey(rows, keyCol, k, w)
      ensures SampleEntries(rows, keyCol, resCols, w)[KeyIndex(SampleEntries(rows, keyCol, resCols, w), rows[k][keyCol])].sub ==
        Leaf(ResultValues(rows[k], resCols))
    {
      SampleLastValues(rows, keyCol, resCols, w, k);
    }
  }

  /** The distinct keys of a column in first-seen order: the groups df.groupby forms. */
  function GroupKeys(rows: seq<seq<Cell>>, col: nat, w: nat): (ks: seq<Cell>)
    requires Wide(rows, w) && col < w
    ensures forall i, j | 0 <= i < j < |ks| :: ks[i] != ks[j]
    ensures forall k | 0 <= k < |rows| :: rows[k][col] in ks
    decreases |rows|
  {
    if rows == [] then []
    else
      var init := rows[..|rows| - 1];
      var ks := GroupKeys(init, col, w);
      var key := rows[|rows| - 1][col];
      assert forall k | 0 <= k < |init| :: init[k] == rows[k];
      if key in ks then ks else ks + [key]
  }

  /** The rows whose column holds the key, in their order. */
  function GroupRows(rows: seq<seq<Cell>>, col: nat, key: Cell, w: nat): (g: seq<seq<Cell>>)
    requires Wide(rows, w) && col < w
    ensures Wide(g, w)
    ensures forall k | 0 <= k < |g| :: g[k][col] == key
    ensures forall k | 0 <= k < |rows| && rows[k][col] == key :: rows[k] in g
    decreases |rows|
  {
    if rows == [] then []
    else
      var rest := GroupRows(rows[1..], col, key, w);
      assert forall k | 1 <= k < |rows| :: rows[1..][k - 1] == rows[k];
      (if rows[0][col] == key then [rows[0]] else []) + rest
  }

  /**
   * __pd_to_dict_recur: above the sample level the rows are grouped by the
   * level's key and each group is converted one level down; at the sample
   * level every row stores its result values under its sample key.
   */
  function PdTree(rows: seq<seq<Cell>>, keyCols: seq<nat>, level: nat, resCols: seq<nat>, w: nat): (t: ResultTree)
    requires Wide(rows, w) && Below(keyCols, w) && Below(resCols, w) && level < |keyCols|
    ensures t.Branch?
    decreases |keyCols| - level
  {
    var col := keyCols[level];
    if level == |keyCols| - 1 then Branch(SampleEntries(rows, col, resCols, w))
    else
      var ks := GroupKeys(rows, col, w);
      Branch(seq(|ks|, i requires 0 <= i < |ks| =>
        ResultEntry(ks[i], PdTree(GroupRows(rows, col, ks[i], w), keyCols, level + 1, resCols, w))))
  }

  /** At every level, no two entries of a dict share a key. */
  predicate KeysDistinct(t: ResultTree)
    decreases t
  {
    match t
    case Leaf(_) => true
    case Branch(es) => DistinctKeys(es) && forall i | 0 <= i < |es| :: KeysDistinct(es[i].sub)
  }

  /** Every group key is the key of some row. */
  lemma {:induction false} GroupKeyOrigin(rows: seq<seq<Cell>>, col: nat, w: nat, i: nat)
    requires Wide(rows, w) && col < w && i < |GroupKeys(rows, col, w)|
    ensures exists k | 0 <= k < |rows| :: rows[k][col] == GroupKeys(rows, col, w)[i]
    decreases |rows|
  {
    var n := |rows| - 1;
    var ks := GroupKeys(rows[..n], col, w);
    if i < |ks| {
      GroupKeyOrigin(rows[..n], col, w, i);
      var k :| 0 <= k < n && rows[..n][k][col] == ks[i];
      assert rows[k] == rows[..n][k];
    } else {
      assert rows[n][col] == GroupKeys(rows, col, w)[i];
    }
  }

  /** At every level, no dict holds a key twice. */
  lemma {:induction false} PdDistinct(rows: seq<seq<Cell>>, keyCols: seq<nat>, level: nat, resCols: seq<nat>, w: nat)
    requires Wide(rows, w) && Below(keyCols, w) && Below(resCols, w) && level < |keyCols|
    ensures KeysDistinct(PdTree(rows, keyCols, level, resCols, w))
    decreases |keyCols| - level
  {
    var col := keyCols[level];
    var t := PdTree(rows, keyCols, level, resCols, w);
    if level == |keyCols| - 1 {
      SampleDistinct(rows, col, resCols, w);
    } else {
      var ks := GroupKeys(rows, col, w);
      forall i | 0 <= i < |ks| ensures KeysDistinct(t.entries[i].sub) {
        PdDistinct(GroupRows(rows, col, ks[i], w), keyCols, level + 1, resCols, w);
      }
    }
  }

  /**
   * The converted dict has one entry per distinct key of the level's column,
   * at every level: every row's key has one, every entry's key is some
   * row's, and no key is held twice.
   */
  lemma {:induction false} PdKeys(rows: seq<seq<Cell>>, keyCols: seq<nat>, level: nat, resCols: seq<nat>, w: nat)
    requires Wide(rows, w) && Below(keyCols, w) && Below(resCols, w) && level < |keyCols|
    ensures KeysDistinct(PdTree(rows, keyCols, level, resCols, w))
    ensures var es := PdTree(rows, keyCols, level, resCols, w).entries;
      forall k | 0 <= k < |rows| :: KeyIndex(es, rows[k][keyCols[level]]) < |es|
    ensures var es := PdTree(rows, keyCols, level, resCols, w).entries;
      forall i | 0 <= i < |es| :: exists k | 0 <= k < |rows| :: rows[k][keyCols[level]] == es[i].key
  {
    var col := keyCols[level];
    var es := PdTree(rows, keyCols, level, resCols, w).entries;
    PdDistinct(rows, keyCols, level, resCols, w);
    if level == |keyCols| - 1 {
      SampleEntriesFacts(rows, col, resCols, w);
    } else {
      var ks := GroupKeys(rows, col, w);
      assert forall i | 0 <= i < |ks| :: es[i].key == ks[i];
      forall k | 0 <= k < |rows| ensures KeyIndex(es, rows[k][col]) < |es| {
        var i :| 0 <= i < |ks| && ks[i] == rows[k][col];
        assert es[i].key == rows[k][col];
      }
      forall i | 0 <= i < |es| ensures exists k | 0 <= k < |rows| :: rows[k][col] == es[i].key {
        GroupKeyOrigin(rows, col, w, i);
      }
    }
  }

  /** Following the keys from t, one entry per key, is possible. */
  predicate HasKeys(t: ResultTree, keys: seq<Cell>)
    decreases |keys|
  {
    keys == [] ||
    (t.Branch? && exists i | 0 <= i < |t.entries| :: t.entries[i].key == keys[0] && HasKeys(t.entries[i].sub, keys[1..]))
  }

  /** A row's keys from `level` down to the sample level. */
  function KeyPath(row: seq<Cell>, keyCols: seq<nat>, level: nat): (p: seq<Cell>)
    requires Below(keyCols, |row|) && level <= |keyCols|
    ensures |p| == |keyCols| - level
  {
    seq(|keyCols| - level, j requires 0 <= j < |keyCols| - level => row[keyCols[level + j]])
  }

  /** Every row's key path is present in the converted dict. */
  lemma {:induction false} PdPaths(rows: seq<seq<Cell>>, keyCols: seq<nat>, level: nat, resCols: seq<nat>, w: nat, k: nat)
    requires Wide(rows, w) && Below(keyCols, w) && Below(resCols, w) && level < |keyCols| && k < |rows|
    ensures HasKeys(PdTree(rows, keyCols, level, resCols, w), KeyPath(rows[k], keyCols, level))
    decreases |keyCols| - level
  {
    var col := keyCols[level];
    var p := KeyPath(rows[k], keyCols, level);
    if level == |keyCols| - 1 {
      var es := SampleEntries(rows, col, resCols, w);
      SampleHasKey(rows, col, resCols, w, k);
      var i := KeyIndex(es, rows[k][col]);
      assert p[1..] == [];
      assert es[i].key == p[0] && HasKeys(es[i].sub, p[1..]);
    } else {
      var ks := GroupKeys(rows, col, w);
      var i :| 0 <= i < |ks| && ks[i] == rows[k][col];
      var g := GroupRows(rows, col, ks[i], w);
      var m :| 0 <= m < |g| && g[m] == rows[k];
      PdPaths(g, keyCols, level + 1, resCols, w, m);
      KeyPathTail(rows[k], keyCols, level);
      PathsStep(rows, keyCols, level, resCols, w, i, g, m, p);
    }
  }

  lemma {:induction false} KeyPathTail(row: seq<Cell>, keyCols: seq<nat>, level: nat)
    requires Below(keyCols, |row|) && level < |keyCols|
    ensures KeyPath(row, keyCols, level)[0] == row[keyCols[level]]
    ensures KeyPath(row, keyCols, level + 1) == KeyPath(row, keyCols, level)[1..]
  {
  }

  /** One level of PdPaths: the group of the row's key holds the rest of its path. */
  lemma {:induction false} PathsStep(rows: seq<seq<Cell>>, keyCols: seq<nat>, level: nat, resCols: seq<nat>, w: nat,
                                     i: nat, g: seq<seq<Cell>>, m: nat, p: seq<Cell>)
    requires Wide(rows, w) && Below(keyCols, w) && Below(resCols, w) && level + 1 < |keyCols|
    requires i < |GroupKeys(rows, keyCols[level], w)| && g == GroupRows(rows, keyCols[level], GroupKeys(rows, keyCols[level], w)[i], w)
    requires m < |g| && |p| == |keyCols| - level && p[0] == GroupKeys(rows, keyCols[level], w)[i]
    requires HasKeys(PdTree(g, keyCols, level + 1, resCols, w), KeyPath(g[m], keyCols, level + 1))
    requires KeyPath(g[m], keyCols, level + 1) == p[1..]
    ensures HasKeys(PdTree(rows, keyCols, level, resCols, w), p)
  {
    PdTreeEntry(rows, keyCols, level, resCols, w, i);
  }

  /** Above the sample level, entry i of the dict is the i-th group key with its group converted one level down. */
  lemma {:induction false} PdTreeEntry(rows: seq<seq<Cell>>, keyCols: seq<nat>, level: nat, resCols: seq<nat>, w: nat, i: nat)
    requires Wide(rows, w) && Below(keyCols, w) && Below(resCols, w) && level + 1 < |keyCols|
    requires i <= |GroupKeys(rows, keyCols[level], w)|
    ensures |PdTree(rows, keyCols, level, resCols, w).entries| == |GroupKeys(rows, keyCols[level], w)|
    ensures var ks := GroupKeys(rows, keyCols[level], w);
      i < |ks| ==> (PdTree(rows, keyCols, level, resCols, w).entries[i] ==
        ResultEntry(ks[i], PdTree(GroupRows(rows, keyCols[level], ks[i], w), keyCols, level + 1, resCols, w)))
  {
  }

  /** One record's result values, result name after result name. */
  method RecordValues(record: seq<Cell>, resCols: seq<nat>) returns (values: seq<Value>)
    requires forall c | 0 <= c < |resCols| :: resCols[c] < |record|
    ensures values == ResultValues(record, resCols)
  {
    values := [];
    for j := 0 to |resCols|
      invariant values == ResultValues(record, resCols)[..j]
    {
      values := values + [CellValue(record[resCols[j]])];
    }
  }

  /** The sample level of __pd_to_dict_recur: the records stored one by one under their sample keys. */
  method StoreRecords(rows: seq<seq<Cell>>, col: nat, resCols: seq<nat>, w: nat) returns (entries: seq<ResultEntry>)
    requires Wide(rows, w) && col < w && Below(resCols, w)
    ensures entries == SampleEntries(rows, col, resCols, w)
  {
    entries := [];
    for k := 0 to |rows|
      invariant entries == SampleEntries(rows[..k], col, resCols, w)
    {
      var values := RecordValues(rows[k], resCols);
      assert rows[..k + 1][..k] == rows[..k];
      entries := Put(entries, rows[k][col], Leaf(values));
    }
    assert rows[..|rows|] == rows;
  }

  /** __pd_to_dict_recur: the sample level stored record by record, the other levels converted group by group. */
  method PdToDict(rows: seq<seq<Cell>>, keyCols: seq<nat>, level: nat, resCols: seq<nat>, w: nat) returns (t: ResultTree)
    requires Wide(rows, w) && Below(keyCols, w) && Below(resCols, w) && level < |keyCols|
    ensures t == PdTree(rows, keyCols, level, resCols, w)
    decreases |keyCols| - level
  {
    var col := keyCols[level];
    if level == |keyCols| - 1 {
      var entries := StoreRecords(rows, col, resCols, w);
      return Branch(entries);
    }
    var ks := GroupKeys(rows, col, w);
    var entries: seq<ResultEntry> := [];
    for i := 0 to |ks|
      invariant |entries| == i
      invariant forall m | 0 <= m < i :: entries[m] == PdTree(rows, keyCols, level, resCols, w).entries[m]
    {
      var sub := PdToDict(GroupRows(rows, col, ks[i], w), keyCols, level + 1, resCols, w);
      PdTreeEntry(rows, keyCols, level, resCols, w, i);
      entries := entries + [ResultEntry(ks[i], sub)];
    }
    PdTreeEntry(rows, keyCols, level, resCols, w, |ks|);
    t := Branch(entries);
  }

  /** The block names of a stored structure; None when it is not a list of dicts with string names. */
  function LevelNames(v: Value): (r: Option<seq<string>>)
    ensures r.Some? ==> v.List? && |r.value| == |v.items|
  {
    if v.List? && forall i | 0 <= i < |v.items| :: v.items[i].Object? && "name" in v.items[i].fields && v.items[i].fields["name"].Str? then
      Some(seq(|v.items|, i requires 0 <= i < |v.items| && v.items[i].Object? && "name" in v.items[i].fields && v.items[i].fields["name"].Str? =>
        v.items[i].fields["name"].s))
    else None
  }

  /** The result names as column labels; None when one is not a string. */
  function Labels(names: seq<Value>): (r: Option<seq<string>>)
    ensures r.Some? ==> |r.value| == |names| && forall i | 0 <= i < |names| :: names[i] == Str(r.value[i])
  {
    if forall i | 0 <= i < |names| :: names[i].Str? then
      Some(seq(|names|, i requires 0 <= i < |names| && names[i].Str? => names[i].s))
    else None
  }

  /** The column each label is read from (its first occurrence); None when a label is no column. */
  function LabelColumns(columns: seq<string>, labels: seq<string>): (r: Option<seq<nat>>)
    ensures r.Some? <==> forall i | 0 <= i < |labels| :: labels[i] in columns
    ensures r.Some? ==> |r.value| == |labels| && Below(r.value, |columns|)
    ensures r.Some? ==> forall i | 0 <= i < |labels| :: columns[r.value[i]] == labels[i]
  {
    if forall i | 0 <= i < |labels| :: labels[i] in columns then
      Some(seq(|labels|, i requires 0 <= i < |labels| && labels[i] in columns => IndexMap.FirstIndex(columns, labels[i])))
    else None
  }

  /**
   * What __add_results_pd makes of a chunk on the attributes s: None when a
   * block column is absent and is not map_id (nothing is then uploaded);
   * otherwise the results dict of the rows, or the error raised on the way.
   */
  function PdConvert(s: Project.Infos, f: DfToDictTree.Frame, mapId: Option<string>): Result<Option<ResultTree>, ModelError>
    requires DfToDictTree.Rectangular(f)
  {
    if s.expectedResults == Null then Err(NoExpectedResults)
    else match LevelNames(s.blockStructure)
      case None => Err(Malformed)
      case Some(levels) =>
        if exists i | 0 <= i < |levels| :: levels[i] !in f.columns && Some(levels[i]) != mapId then Ok(None)
        else if levels == [] then Err(Malformed)
        else match ExpectedNames(s.expectedResults)
          case None => Err(Malformed)
          case Some(names) =>
            match Labels(names)
            case None => Err(Malformed)
            case Some(labels) =>
              match (LabelColumns(f.columns, levels), LabelColumns(f.columns, labels))
              case (Some(keyCols), Some(resCols)) => Ok(Some(PdTree(f.data, keyCols, 0, resCols, |f.columns|)))
              case _ => Err(Malformed)
  }

  class Model {
    const project: Project.Project
    const name: Value
    const id: Value

    constructor(project: Project.Project, name: Value, id: Value)
      ensures this.project == project && this.name == name && this.id == id
    {
      this.project := project;
      this.name := name;
      this.id := id;
    }

    /** expected_results_exists: an error exactly when the project has no expected results. */
    function ExpectedResultsExists(): (r: Outcome<ModelError>)
      reads project
      ensures r.Fail? <==> project.expectedResults == Null
      ensures r.Fail? ==> r.error == NoExpectedResults
    {
      if project.expectedResults == Null then Fail(NoExpectedResults) else Pass
    }

    /**
     * add_results_dict: refresh the project, check the results dict against
     * the expected results and the block structure, and upload it with its
     * order in one call; nothing is uploaded when a check fails.
     */
    method AddResultsDict(results: ResultTree, order: Option<seq<Value>>) returns (r: Result<bool, ModelError>)
      modifies project, project.server
      ensures project.server.project == old(project.server.project) && project.server.failures == old(project.server.failures)
      ensures project.server.project.None? ==>
        r == Err(NoProject) && project.State() == old(project.State()) && project.server.accepted == old(project.server.accepted)
      ensures project.server.project.Some? ==> project.State() == Project.Refreshed(project.server.project.value, old(project.State()))
      ensures project.server.project.Some? ==>
        DictOutcome(project.State(), id, results, order, old(project.server.calls), project.server.failures,
                    old(project.server.accepted), project.server.accepted, r)
    {
      var info := project.Refresh();
      if info.Err? {
        return Err(NoProject);
      }
      var check := ExpectedResultsExists();
      if check.Fail? {
        return Err(check.error);
      }
      if !results.Branch? {
        return Err(NotADict);
      }
      var known := ExpectedNames(project.expectedResults);
      if known.None? {
        return Err(Malformed);
      }
      var ord: seq<Value>;
      if order.Some? {
        var e := CheckOrder(known.value, order.value);
        if e.Some? {
          return Err(e.value);
        }
        ord := order.value;
      } else {
        ord := known.value;
      }
      var size := SizeOf(project.blockStructure);
      if size.None? {
        return Err(Malformed);
      }
      var sampleIndex := size.value as int - 1;
      var err := CheckEntries(results, 0, 0, sampleIndex, |ord|, []);
      if err.Some? {
        return Err(err.value);
      }
      var failure := project.server.Submit(PostModelResults(id, results, ord));
      if failure.Some? {
        return Err(Failed(failure.value));
      }
      return Ok(true);
    }

    /**
     * __add_results_pd: check that every block column is there, convert the
     * rows to a results dict and hand it to add_results_dict; a missing block
     * column only ends the call with False.
     */
    method AddResultsPd(f: DfToDictTree.Frame, mapId: Option<string>) returns (r: Result<bool, ModelError>)
      requires DfToDictTree.Rectangular(f) && |f.data| > 0
      modifies project, project.server
      ensures project.server.project == old(project.server.project) && project.server.failures == old(project.server.failures)
      ensures OnlyResults(old(project.server.accepted), project.server.accepted, id)
      ensures var c := PdConvert(old(project.State()), f, mapId);
        c.Err? ==> r == Err(c.error) && project.State() == old(project.State()) && project.server.accepted == old(project.server.accepted)
      ensures var c := PdConvert(old(project.State()), f, mapId);
        c == Ok(None) ==> r == Ok(false) && project.State() == old(project.State()) && project.server.accepted == old(project.server.accepted)
      ensures var c := PdConvert(old(project.State()), f, mapId);
        c.Ok? && c.value.Some? && project.server.project.None? ==>
          r == Err(NoProject) && project.server.accepted == old(project.server.accepted)
      ensures var c := PdConvert(old(project.State()), f, mapId);
        c.Ok? && c.value.Some? && project.server.project.Some? ==>
          project.State() == Project.Refreshed(project.server.project.value, old(project.State())) &&
          DictOutcome(project.State(), id, c.value.value, None, old(project.server.calls), project.server.failures,
                      old(project.server.accepted), project.server.accepted, r)
    {
      var check := ExpectedResultsExists();
      if check.Fail? {
        return Err(check.error);
      }
      var levels := LevelNames(project.blockStructure);
      if levels.None? {
        return Err(Malformed);
      }
      var ls := levels.value;
      for i := 0 to |ls|
        invariant forall m | 0 <= m < i :: ls[m] in f.columns || Some(ls[m]) == mapId
      {
        if ls[i] !in f.columns && Some(ls[i]) != mapId {
          // the source prints that the block is missing from the given samples
          return Ok(false);
        }
      }
      if ls == [] {
        return Err(Malformed);
      }
      var names := ExpectedNames(project.expectedResults);
      if names.None? {
        return Err(Malformed);
      }
      var labels := Labels(names.value);
      if labels.None? {
        return Err(Malformed);
      }
      var keyCols := LabelColumns(f.columns, ls);
      var resCols := LabelColumns(f.columns, labels.value);
      if keyCols.None? || resCols.None? {
        return Err(Malformed);
      }
      var dict := PdToDict(f.data, keyCols.value, 0, resCols.value, |f.columns|);
      r := AddResultsDict(dict, None);
      if project.server.project.Some? {
        DictOutcomeLogs(project.State(), id, dict, None, old(project.server.calls), project.server.failures,
                        old(project.server.accepted), project.server.accepted, r);
      }
    }

    /** One chunk of add_results_df: the rows from start to end handed to __add_results_pd. */
    method AddChunk(f: DfToDictTree.Frame, start: nat, end: nat, mapId: Option<string>) returns (r: Result<bool, ModelError>)
      requires DfToDictTree.Rectangular(f) && start < end <= |f.data|
      modifies project, project.server
      ensures OnlyResults(old(project.server.accepted), project.server.accepted, id)
    {
      Project.RectangularSlice(f, start, end);
      r := AddResultsPd(DfToDictTree.Frame(f.columns, f.data[start..end]), mapId);
    }

    /**
     * add_results_df: hand the rows to __add_results_pd in consecutive chunks
     * of 5000, advancing the progress count by each chunk's rows; the
     * answer is True whatever each chunk's outcome, unless a chunk raises.
     */
    method AddResultsDf(f: DfToDictTree.Frame, mapId: Option<string>)
      returns (r: Result<bool, ModelError>, ghost handed: seq<seq<seq<Cell>>>, ghost progress: seq<nat>)
      requires DfToDictTree.Rectangular(f)
      modifies project, project.server
      ensures handed <= Chunks(f.data, CHUNK_SIZE)
      ensures r.Ok? ==> r == Ok(true) && handed == Chunks(f.data, CHUNK_SIZE) && progress == Progress(Chunks(f.data, CHUNK_SIZE))
      ensures r.Err? ==> 0 < |handed| && progress == Progress(Chunks(f.data, CHUNK_SIZE))[..|handed| - 1]
      ensures OnlyResults(old(project.server.accepted), project.server.accepted, id)
    {
      ghost var chunks := Chunks(f.data, CHUNK_SIZE);
      var server := project.server;
      handed, progress := [], [];
      var n := |f.data|;
      SlicesChunks(f.data, CHUNK_SIZE, 0);
      assert f.data[0..] == f.data;
      var start: nat, added: nat := 0, 0;
      ghost var k := 0;
      while start < n
        invariant k <= |chunks| && chunks[k..] == Slices(f.data, CHUNK_SIZE, start)
        invariant handed == chunks[..k] && |progress| == k
        invariant progress + Ends(n, CHUNK_SIZE, start) == Ends(n, CHUNK_SIZE, 0)
        invariant start < n ==> added == start
        invariant OnlyResults(old(server.accepted), server.accepted, id)
        decreases n - start
      {
        var end := Min(start + CHUNK_SIZE, n);
        ChunkStep(f.data, CHUNK_SIZE, start, chunks, k, handed, progress);
        ghost var before := server.accepted;
        var outcome := AddChunk(f, start, end, mapId);
        OnlyResultsTrans(old(server.accepted), before, server.accepted, id);
        if outcome.Err? {
          ChunkExit(f.data, CHUNK_SIZE, start, k, handed, progress);
          return Err(outcome.error), handed + [chunks[k]], progress;
        }
        handed := handed + [chunks[k]];
        added := added + (end - start);
        progress := progress + [added];
        start, k := start + CHUNK_SIZE, k + 1;
      }
      ChunkExit(f.data, CHUNK_SIZE, start, k, handed, progress);
      return Ok(true), handed, progress;
    }
  }
}
