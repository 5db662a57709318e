/**
 * The DebiAI backend as the client sees it. Reads (the project, its samples,
 * its selections and tags) return the server's current answers, held in the
 * fields of `Server`. Writes are requests that the server either accepts
 * (and logs) or fails; which call fails is part of the server's state, so
 * every failure the client must handle is reachable. What an accepted
 * request does on the server side is not modelled.
 */
module Backend {
  import opened Wrappers
  import opened Values
  import opened Tree
  import NpToDict

  /** A sample tree ready for post_add_tree, built by one of the two encoders. */
  datatype Upload =
    | NpTree(np: seq<Node<NpToDict.NpValue>>)
    | DfTree(df: seq<Node<Cell>>)

  /** The write requests of the client library. */
  datatype Request =
    | AddBlockLevel(levels: seq<Dict>)
    | PostExpectedResults(results: seq<Dict>)
    | PostAddTree(tree: Upload)
    | PostModel(name: Value)
    | DeleteModel(modelId: Value)
    | DeleteSelection(selectionId: Value)
    | PostModelResults(modelId: Value, resultTree: ResultTree, order: seq<Value>)

  /** A request the server answered with an error status, or one that never reached it. */
  datatype Failure = Rejected | Unreachable

  /** A named backend object (a selection or a tag) as the backend lists it. */
  datatype Entity = Entity(id: Value, name: Value)

  /** What the client can read back from the server: everything but the call count, the log and the failure plan. */
  datatype View = View(project: Option<Dict>, sampleTree: seq<Node<Value>>, selections: seq<Entity>, tags: seq<Entity>,
                       tagDocuments: map<Value, Value>, taggedSamples: map<(Value, Value), seq<Node<Value>>>)

  /** None of the n write calls numbered from `from` on is planned to fail. */
  predicate NoFailure(failures: map<nat, Failure>, from: nat, n: nat)
  {
    forall j | from <= j < from + n :: j !in failures
  }

  /** Call `from + k` is the first call from `from` on that is planned to fail. */
  predicate FirstFailure(failures: map<nat, Failure>, from: nat, k: nat)
  {
    from + k in failures && NoFailure(failures, from, k)
  }

  class Server {
    /** The project document; None when the backend answers 404. */
    var project: Option<Dict>
    /** The project's sample tree. */
    var sampleTree: seq<Node<Value>>
    var selections: seq<Entity>
    var tags: seq<Entity>
    /** The document returned for a tag id; JSON null for an unknown id. */
    var tagDocuments: map<Value, Value>
    /** The sample tree of a (tag id, tag value) pair. */
    var taggedSamples: map<(Value, Value), seq<Node<Value>>>
    /** The failures of the write calls, by call number. */
    var failures: map<nat, Failure>
    /** The number of write calls made so far. */
    var calls: nat
    /** The accepted requests, in order. */
    var accepted: seq<Request>

    constructor(project: Option<Dict>, failures: map<nat, Failure>)
      ensures this.project == project && this.failures == failures
      ensures sampleTree == [] && selections == [] && tags == []
      ensures tagDocuments == map[] && taggedSamples == map[]
      ensures calls == 0 && accepted == []
    {
      this.project := project;
      this.failures := failures;
      sampleTree := [];
      selections := [];
      tags := [];
      tagDocuments := map[];
      taggedSamples := map[];
      calls := 0;
      accepted := [];
    }

    function Observed(): View
      reads this
    {
      View(project, sampleTree, selections, tags, tagDocuments, taggedSamples)
    }

    /** get_tag: the tag document (JSON null when the id is unknown). */
    function TagDocument(id: Value): Value
      reads this
    {
      if id in tagDocuments then tagDocuments[id] else Null
    }

    /** get_samples_from_tag: the samples carrying a tag value. */
    function TaggedSamples(id: Value, value: Value): seq<Node<Value>>
      reads this
    {
      if (id, value) in taggedSamples then taggedSamples[(id, value)] else []
    }

    /**
     * A write call: it fails as `failures` says for this call number, and
     * is logged when it does not.
     */
    method Submit(req: Request) returns (failure: Option<Failure>)
      modifies this
      ensures failure == (if old(calls) in failures then Some(failures[old(calls)]) else None)
      ensures calls == old(calls) + 1
      ensures accepted == (if failure.None? then old(accepted) + [req] else old(accepted))
      ensures Observed() == old(Observed()) && failures == old(failures)
    {
      failure := if calls in failures then Some(failures[calls]) else None;
      if failure.None? {
        accepted := accepted + [req];
      }
      calls := calls + 1;
    }
  }
}
