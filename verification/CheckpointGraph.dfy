/**
 The dataflow graph of a Creator analysis: one write-once cell per node, each node's evidence
 catalog a function of the cells upstream. Model outputs are opaque; what makes one acceptable is
 given by `Rules`, about which nothing is assumed.
 */
module CheckpointGraph {
  import opened Common

  type Value = string

  datatype Kind = ContentFormat | Presentation | PerformanceAudience | CommercialSafety

  datatype Node = Source | Batch(index: nat) | Visual | Contact | Reduce(kind: Kind) | Brief

  type Values = map<Node, Value>

  /**
   `digestOk(source, index, output)`, `reductionOk(kind, digests, visual, output)` and
   `briefOk(reductions, contact, output)` say that an output cites its stage's catalog only (and,
   for a brief, that it merges and that its contact selections bind).
   */
  datatype Rules = Rules(
    identityOk: Value -> bool,
    videoCount: Value -> nat,
    digestOk: (Value, nat, Value) -> bool,
    reductionOk: (Kind, seq<Value>, Value, Value) -> bool,
    briefOk: (seq<Value>, Value, Value) -> bool,
    publish: (Value, Value, Value, seq<Value>, Value) -> Value)

  const BATCH_SIZE := 10
  const MAX_BATCHES := 5

  function BatchCount(videos: nat): (count: nat)
    ensures 1 <= count <= MAX_BATCHES
  {
    var counted := if videos < BATCH_SIZE * MAX_BATCHES then videos else BATCH_SIZE * MAX_BATCHES;
    if counted == 0 then 1 else (counted + BATCH_SIZE - 1) / BATCH_SIZE
  }

  /** The video batches split the first fifty videos, ten to a batch; none is empty but the only one of no videos. */
  lemma BatchesPartition(videos: nat)
    ensures forall v: nat :: v < videos && v < 50 ==> v / 10 < BatchCount(videos)
    ensures forall i: nat :: i < BatchCount(videos) ==> i == 0 || (i * 10 < videos && i < 5)
    ensures forall v: nat, i: nat :: i * 10 <= v < (i + 1) * 10 <==> i == v / 10
    ensures BatchCount(videos) >= 1
  {
  }

  // ---------------------------------------------------------------- waves

  function MapNodes(rules: Rules, source: Value): set<Node> {
    {Visual, Contact} + set i | 0 <= i < BatchCount(rules.videoCount(source)) :: Batch(i)
  }

  const REDUCE_NODES: set<Node> :=
    {Reduce(ContentFormat), Reduce(Presentation), Reduce(PerformanceAudience), Reduce(CommercialSafety)}

  /** The nodes a run still needs in the wave it is in; empty once it has everything. */
  function Wave(rules: Rules, values: Values): set<Node> {
    if Source !in values then {Source}
    else if !(MapNodes(rules, values[Source]) <= values.Keys) then MapNodes(rules, values[Source]) - values.Keys
    else if !(REDUCE_NODES <= values.Keys) then REDUCE_NODES - values.Keys
    else {Brief} - values.Keys
  }

  /** Everything the node's prompt, catalog and acceptance are computed from is there. */
  predicate Supported(rules: Rules, values: Values, node: Node) {
    match node
    case Source => true
    case Batch(i) => Source in values && i < BatchCount(rules.videoCount(values[Source]))
    case Visual => Source in values
    case Contact => Source in values
    case Reduce(_) => Source in values && MapNodes(rules, values[Source]) <= values.Keys
    case Brief => Contact in values && REDUCE_NODES <= values.Keys
  }

  function Digests(rules: Rules, values: Values): seq<Value>
    requires Source in values && MapNodes(rules, values[Source]) <= values.Keys
  {
    seq(BatchCount(rules.videoCount(values[Source])),
        i requires 0 <= i < BatchCount(rules.videoCount(values[Source])) =>
      assert Batch(i) in MapNodes(rules, values[Source]); values[Batch(i)])
  }

  function Reductions(values: Values): seq<Value>
    requires REDUCE_NODES <= values.Keys
  {
    [values[Reduce(ContentFormat)], values[Reduce(Presentation)], values[Reduce(PerformanceAudience)],
     values[Reduce(CommercialSafety)]]
  }

  /** A stage may return this output, and a stored one passes its re-check. */
  predicate Accepted(rules: Rules, values: Values, node: Node, output: Value)
    requires Supported(rules, values, node)
  {
    match node
    case Source => rules.identityOk(output)
    case Batch(i) => rules.digestOk(values[Source], i, output)
    case Visual => true
    case Contact => true
    case Reduce(kind) =>
      assert Visual in MapNodes(rules, values[Source]);
      rules.reductionOk(kind, Digests(rules, values), values[Visual], output)
    case Brief => rules.briefOk(Reductions(values), values[Contact], output)
  }

  predicate Complete(rules: Rules, values: Values) {
    && Source in values && MapNodes(rules, values[Source]) <= values.Keys
    && REDUCE_NODES <= values.Keys && Brief in values
  }

  function Publication(rules: Rules, values: Values): Value
    requires Complete(rules, values)
  {
    assert Visual in MapNodes(rules, values[Source]) && Contact in MapNodes(rules, values[Source]);
    rules.publish(values[Source], values[Visual], values[Contact], Reductions(values), values[Brief])
  }

  // ---------------------------------------------------------------- frames

  ghost predicate Extends(small: Values, large: Values) {
    forall n :: n in small ==> n in large && large[n] == small[n]
  }

  /** Acceptance looks upstream only, and write-once cells upstream never change. */
  lemma AcceptedFrame(rules: Rules, small: Values, large: Values, node: Node)
    requires Extends(small, large) && Supported(rules, small, node)
    ensures Supported(rules, large, node)
    ensures forall output :: Accepted(rules, large, node, output) == Accepted(rules, small, node, output)
  {
    if node.Reduce? {
      assert Visual in MapNodes(rules, small[Source]);
      forall i | 0 <= i < BatchCount(rules.videoCount(small[Source]))
        ensures Batch(i) in small && large[Batch(i)] == small[Batch(i)]
      {
        assert Batch(i) in MapNodes(rules, small[Source]);
      }
      assert Digests(rules, small) == Digests(rules, large);
    }
  }

  lemma PublicationFrame(rules: Rules, small: Values, large: Values)
    requires Extends(small, large) && Complete(rules, small)
    ensures Complete(rules, large) && Publication(rules, large) == Publication(rules, small)
  {
    assert Visual in MapNodes(rules, small[Source]) && Contact in MapNodes(rules, small[Source]);
  }

  lemma WaveIsSupported(rules: Rules, values: Values, node: Node)
    requires node in Wave(rules, values)
    ensures node !in values && Supported(rules, values, node)
  {
    if node.Brief? {
      assert Contact in MapNodes(rules, values[Source]);
    }
  }

  lemma WaveEndsComplete(rules: Rules, values: Values)
    ensures Wave(rules, values) == {} <==> Complete(rules, values)
  {
    if Source !in values {
      assert Source in Wave(rules, values);
    } else {
      var nodes := MapNodes(rules, values[Source]);
      hide MapNodes;
      NothingMissing(nodes, values.Keys);
      NothingMissing(REDUCE_NODES, values.Keys);
      NothingMissing({Brief}, values.Keys);
    }
  }

  lemma NothingMissing(nodes: set<Node>, present: set<Node>)
    ensures nodes - present == {} <==> nodes <= present
  {
    if nodes - present == {} {
      forall n | n in nodes ensures n in present {
        assert n !in nodes - present;
      }
    }
  }

  /** Every stored cell is supported by stored cells and passes the check its readers make. */
  ghost predicate StoreInv(rules: Rules, store: Values) {
    forall n :: n in store ==> Supported(rules, store, n) && Accepted(rules, store, n, store[n])
  }

  lemma SavedKeepsStore(rules: Rules, store: Values, node: Node, output: Value)
    requires StoreInv(rules, store) && node !in store
    requires Supported(rules, store, node) && Accepted(rules, store, node, output)
    ensures StoreInv(rules, store[node := output])
  {
    var after := store[node := output];
    forall n | n in after ensures Supported(rules, after, n) && Accepted(rules, after, n, after[n]) {
      AcceptedFrame(rules, store, after, n);
    }
  }
}
