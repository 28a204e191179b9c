/**
 One pipeline run as it executes: load what is stored, run the missing calls in parallel, save each
 as it completes, in whatever order that happens.
 */
module CheckpointWaves {
  import opened Common
  import opened CheckpointGraph
  import opened CheckpointRuns

  const STATE_INVALID := "analysis_job_state_invalid"

  /**
   A stage's two attempts; `validate` gives the error code an output would be refused with. A refused output is
   tried once more, a provider error is raised at once.
   */
  method BoundedStage(validate: Value -> Option<string>, attempts: seq<Outcome<Value>>)
    returns (outcome: Outcome<Value>)
    requires |attempts| == 2
    ensures outcome.Done? ==> outcome in attempts && validate(outcome.value).None?
    ensures Settles(validate, attempts[0]) ==> outcome == attempts[0]
    ensures !Settles(validate, attempts[0]) && Settles(validate, attempts[1]) ==> outcome == attempts[1]
    ensures !Settles(validate, attempts[0]) && !Settles(validate, attempts[1]) ==>
              outcome.Raised? && Some(outcome.code) == validate(attempts[1].value)
  {
    for attempt := 0 to 2
      invariant attempt < 2 && forall i :: 0 <= i < attempt ==> !Settles(validate, attempts[i])
    {
      if attempts[attempt].Raised? {
        return attempts[attempt];
      }
      var refused := validate(attempts[attempt].value);
      if refused.Some? {
        if attempt == 0 {
          continue;
        }
        return Raised(refused.value);
      }
      return attempts[attempt];
    }
    assert false;
  }

  /** The attempt ends the stage: the provider failed, or the output is valid. */
  predicate Settles(validate: Value -> Option<string>, attempt: Outcome<Value>) {
    attempt.Done? ==> validate(attempt.value).None?
  }

  /** Thumbnail analysis: provider errors and uncited outputs are retried once, then given up as unavailable. */
  method VisualStage(validate: Value -> bool, attempts: seq<Outcome<Value>>, unavailable: Value) returns (output: Value)
    requires |attempts| == 2
    ensures output == (if attempts[0].Done? && validate(attempts[0].value) then attempts[0].value
                       else if attempts[1].Done? && validate(attempts[1].value) then attempts[1].value
                       else unavailable)
  {
    for attempt := 0 to 2
      invariant forall i :: 0 <= i < attempt ==> attempts[i].Raised? || !validate(attempts[i].value)
    {
      if attempts[attempt].Raised? || !validate(attempts[attempt].value) {
        continue;
      }
      return attempts[attempt].value;
    }
    return unavailable;
  }

  // ---------------------------------------------------------------- what a parallel wave does

  /** The calls that end in an error: their own, or the job gate's when they try to save. */
  function Failures(status: JobStatus, calls: map<Node, Outcome<Value>>): map<Node, string> {
    map n | n in calls && (calls[n].Raised? || !status.Running?) ::
      if calls[n].Raised? then calls[n].code else STATE_INVALID
  }

  /** The store once every successful call has been saved, first writer winning. */
  function SavedAll(store: Values, status: JobStatus, calls: map<Node, Outcome<Value>>): Values {
    if !status.Running? then store
    else
      map n | n in store.Keys + (set c | c in calls && calls[c].Done?) ::
        if n in store then store[n] else calls[n].value
  }

  function Stored(store: Values, nodes: set<Node>): Values {
    map n | n in nodes && n in store :: store[n]
  }

  function Missing(store: Values, nodes: set<Node>): set<Node> {
    nodes - store.Keys
  }

  /** The calls raise the error of the failed node whose key sorts first, or return what is stored. */
  ghost predicate ParallelOutcome(store: Values, status: JobStatus, calls: map<Node, Outcome<Value>>,
                                  outcome: Outcome<Values>) {
    var failures := Failures(status, calls);
    if failures == map[] then
      outcome == Done(Stored(SavedAll(store, status, calls), calls.Keys))
    else
      outcome.Raised? && exists n :: FirstFailed(failures, n) && failures[n] == outcome.code
  }

  predicate InGraph(node: Node) {
    node.Batch? ==> node.index < MAX_BATCHES
  }

  /** The raised error does not depend on the order in which the calls completed. */
  lemma FirstFailedIsUnique<T>(failed: map<Node, T>, a: Node, b: Node)
    requires forall n :: n in failed ==> InGraph(n)
    requires FirstFailed(failed, a) && FirstFailed(failed, b)
    ensures a == b
  {
    assert Rank(a) == Rank(b);
    match a
    case Batch(_) => assert b.Batch?;
    case Reduce(_) =>
    case _ =>
  }

  class CheckpointStore {
    var store: Values
    var status: JobStatus

    method Load(node: Node) returns (outcome: Outcome<Option<Value>>)
      ensures outcome == (if !status.Running? && !status.Succeeded? then Raised(STATE_INVALID)
                          else Done(if node in store then Some(store[node]) else None))
    {
      if !status.Running? && !status.Succeeded? {
        return Raised(STATE_INVALID);
      }
      if node !in store {
        return Done(None);
      }
      return Done(Some(store[node]));
    }

    method SaveSuccess(node: Node, output: Value) returns (outcome: Outcome<Value>)
      modifies `store
      ensures !status.Running? ==> store == old(store) && outcome == Raised(STATE_INVALID)
      ensures status.Running? ==>
                && store == (if node in old(store) then old(store) else old(store)[node := output])
                && outcome == Done(store[node])
    {
      if !status.Running? {
        return Raised(STATE_INVALID);
      }
      if node in store {
        return Done(store[node]);
      }
      store := store[node := output];
      return Done(output);
    }

    /** Futures are taken up in any order; the store and the outcome come out the same. */
    method RunParallel(calls: map<Node, Outcome<Value>>) returns (outcome: Outcome<Values>)
      modifies `store
      ensures store == SavedAll(old(store), status, calls)
      ensures ParallelOutcome(old(store), status, calls, outcome)
    {
      var completed: Values := map[];
      var errors: map<Node, string> := map[];
      var running := calls.Keys;
      NoneFinished(store, status, calls);
      hide SavedAll, Failures, Kept, Finished, Stored;
      while running != {}
        invariant running <= calls.Keys
        invariant store == SavedAll(old(store), status, Finished(calls, running))
        invariant errors == Failures(status, Finished(calls, running))
        invariant completed == Kept(store, status, Finished(calls, running))
        decreases |running|
      {
        var node :| node in running;
        OneMoreFinished(calls, running, node);
        SavedStep(old(store), status, Finished(calls, running), node, calls[node]);
        FailuresStep(status, Finished(calls, running), node, calls[node]);
        KeptStep(store, SavedAll(old(store), status, Finished(calls, running - {node})), status,
                 Finished(calls, running), node, calls[node]);
        running := running - {node};
        match calls[node] {
          case Done(output) =>
            var saved := SaveSuccess(node, output);
            if saved.Done? {
              completed := completed[node := saved.value];
            } else {
              errors := errors[node := saved.code];
            }
          case Raised(code) =>
            errors := errors[node := code];
        }
      }
      AllFinished(old(store), status, calls);
      if errors != map[] {
        var first := LeastKey(errors);
        return Raised(errors[first]);
      }
      return Done(completed);
    }

    /** Loads one node and re-checks it; the re-check of what is stored cannot fail. */
    method LoadChecked(rules: Rules, values: Values, node: Node) returns (outcome: Outcome<Option<Value>>)
      requires Supported(rules, values, node) && (node in store ==> Accepted(rules, values, node, store[node]))
      ensures outcome.Raised? <==> !status.Running? && !status.Succeeded?
      ensures outcome.Done? ==> outcome.value == if node in store then Some(store[node]) else None
    {
      outcome := Load(node);
      if outcome.Done? && outcome.value.Some? && !Accepted(rules, values, node, outcome.value.value) {
        assert false;
        outcome := Raised(STATE_INVALID);
      }
    }

    /** The first half of a wave: stored nodes are re-checked and taken over, the others are to be called. */
    method LoadWave(rules: Rules, values: Values, nodes: set<Node>)
      returns (outcome: Outcome<Values>, missing: set<Node>)
      requires StoreInv(rules, store) && Extends(values, store)
      requires nodes == Wave(rules, values)
      ensures outcome.Raised? ==> !status.Running? && !status.Succeeded?
      ensures outcome.Done? ==> missing == Missing(store, nodes) && outcome == Done(Stored(store, nodes))
    {
      var found: Values := map[];
      missing := {};
      var todo := nodes;
      hide Wave, StoreInv, Supported, Accepted, Extends;
      while todo != {}
        invariant todo <= nodes
        invariant missing == Missing(store, nodes - todo)
        invariant found == Stored(store, nodes - todo)
        decreases |todo|
      {
        var node :| node in todo;
        StoredPasses(rules, store, values, node);
        StoredStep(store, nodes, todo, node);
        hide Missing, Stored;
        todo := todo - {node};
        var loaded := LoadChecked(rules, values, node);
        if loaded.Raised? {
          return Raised(loaded.code), {};
        }
        if loaded.value.None? {
          missing := missing + {node};
        } else {
          found := found[node := loaded.value.value];
        }
      }
      assert nodes - todo == nodes;
      return Done(found), missing;
    }

    /**
     One wave. Whatever it returns is what the store holds, and a wave whose calls succeed on a
     running job succeeds, as does one that finds every node stored.
     */
    method RunWave(rules: Rules, values: Values, nodes: set<Node>, stages: map<Node, Outcome<Value>>)
      returns (outcome: Outcome<Values>)
      requires StoreInv(rules, store) && Extends(values, store)
      requires nodes == Wave(rules, values) && nodes <= stages.Keys
      requires forall n :: n in nodes && Supported(rules, values, n) && stages[n].Done? ==>
                 Accepted(rules, values, n, stages[n].value)
      modifies `store
      ensures StoreInv(rules, store) && Extends(old(store), store)
      ensures outcome.Done? ==> outcome.value.Keys == values.Keys + nodes && Extends(outcome.value, store)
      ensures nodes <= old(store).Keys ==> store == old(store)
      ensures status.Running? && (forall n :: n in nodes - old(store).Keys ==> stages[n].Done?) ==> outcome.Done?
      ensures status.Succeeded? && nodes <= old(store).Keys ==> outcome.Done?
    {
      var loaded, missing := LoadWave(rules, values, nodes);
      if loaded.Raised? {
        return Raised(loaded.code);
      }
      var calls := map n | n in missing :: stages[n];
      forall n | n in nodes ensures Supported(rules, values, n) {
        WaveIsSupported(rules, values, n);
      }
      hide Wave, Supported, Accepted, StoreInv, SavedAll, ParallelOutcome;
      SavedAllKeeps(rules, store, values, nodes, status, calls);
      var results := RunParallel(calls);
      WaveResult(old(store), status, calls, results);
      if results.Raised? {
        return Raised(results.code);
      }
      WaveMerged(values, old(store), store, nodes, results.value);
      hide Stored, Extends;
      return Done(values + loaded.value + results.value);
    }

    method NextWave(rules: Rules, values: Values, stages: (Node, Values) -> Outcome<Value>)
      returns (outcome: Outcome<Values>)
      requires StoreInv(rules, store) && Extends(values, store) && Honest(rules, stages)
      modifies `store
      ensures StoreInv(rules, store) && Extends(old(store), store)
      ensures outcome.Done? ==>
                outcome.value.Keys == values.Keys + Wave(rules, values) && Extends(values, outcome.value)
                                && Extends(outcome.value, store)
      ensures status.Running? && (forall n :: stages(n, values).Done?) ==> outcome.Done?
      ensures (status.Running? || status.Succeeded?) && Complete(rules, old(store)) ==>
              outcome.Done? && store == old(store)
    {
      var nodes := Wave(rules, values);
      var results := map n | n in nodes :: stages(n, values);
      if Complete(rules, store) {
        CompleteHasEveryWave(rules, values, store);
      }
      ghost var before := store;
      outcome := RunWave(rules, values, nodes, results);
      hide Wave, Supported, Accepted, StoreInv, Complete;
      if outcome.Done? {
        forall n | n in values ensures n in outcome.value && outcome.value[n] == values[n] {
          assert n in before && n in outcome.value;
        }
      }
    }

    /**
     The pipeline's four waves. What it publishes is what the store determines; on a store that is
     already complete it publishes that without consulting any stage and without writing.
     */
    method RunPipeline(rules: Rules, stages: (Node, Values) -> Outcome<Value>) returns (outcome: Outcome<Value>)
      requires StoreInv(rules, store) && Honest(rules, stages)
      modifies `store
      ensures StoreInv(rules, store) && Extends(old(store), store)
      ensures outcome.Done? ==> Complete(rules, store) && outcome == Done(Publication(rules, store))
      ensures outcome.Done? ==> Checked(rules, store) && PublishedFrom(rules, store, outcome.value)
      ensures (status.Running? || status.Succeeded?) && Complete(rules, old(store)) ==>
                store == old(store) && outcome == Done(Publication(rules, store))
      ensures status.Running? && (forall n, values :: stages(n, values).Done?) ==> outcome.Done?
    {
      WaveAtStart(rules, store);
      hide *;
      var source := NextWave(rules, map[], stages);
      if source.Raised? {
        return Raised(source.code);
      }
      WaveAfterSource(rules, source.value);
      ghost var atMap := store;
      var mapped := NextWave(rules, source.value, stages);
      ExtendsTransitive(old(store), atMap, store);
      if mapped.Raised? {
        return Raised(mapped.code);
      }
      WaveAfterMap(rules, source.value, mapped.value);
      ghost var atReduce := store;
      var reduced := NextWave(rules, mapped.value, stages);
      ExtendsTransitive(old(store), atReduce, store);
      if reduced.Raised? {
        return Raised(reduced.code);
      }
      WaveAfterReduce(rules, mapped.value, reduced.value);
      ghost var atBrief := store;
      var briefed := NextWave(rules, reduced.value, stages);
      ExtendsTransitive(old(store), atBrief, store);
      if briefed.Raised? {
        return Raised(briefed.code);
      }
      CompleteAfterBrief(rules, reduced.value, briefed.value);
      PublicationFrame(rules, briefed.value, store);
      CellsAreChecked(rules, store);
      PublicationSpelled(rules, store);
      return Done(Publication(rules, briefed.value));
    }
  }

  /** A stage returns accepted outputs or raises; which of the two, and what, is up to the model. */
  ghost predicate Honest(rules: Rules, stages: (Node, Values) -> Outcome<Value>) {
    forall n, values :: Supported(rules, values, n) && stages(n, values).Done? ==>
      Accepted(rules, values, n, stages(n, values).value)
  }

  // ---------------------------------------------------------------- what the loops rest on

  function Finished(calls: map<Node, Outcome<Value>>, running: set<Node>): map<Node, Outcome<Value>> {
    map n | n in calls && n !in running :: calls[n]
  }

  /** What the successful calls were answered with. */
  function Kept(store: Values, status: JobStatus, calls: map<Node, Outcome<Value>>): Values {
    map n | n in calls && calls[n].Done? && status.Running? && n in store :: store[n]
  }

  lemma NoneFinished(store: Values, status: JobStatus, calls: map<Node, Outcome<Value>>)
    ensures var none := Finished(calls, calls.Keys);
            SavedAll(store, status, none) == store && Failures(status, none) == map[] &&
              Kept(store, status, none) == map[]
  {
  }

  lemma AllFinished(store: Values, status: JobStatus, calls: map<Node, Outcome<Value>>)
    ensures Finished(calls, {}) == calls
    ensures Failures(status, calls) == map[] ==>
              Kept(SavedAll(store, status, calls), status, calls) == Stored(SavedAll(store, status, calls), calls.Keys)
  {
    assert Finished(calls, {}) == calls;
    if Failures(status, calls) == map[] {
      forall n | n in calls ensures calls[n].Done? && status.Running? {
        assert n !in Failures(status, calls);
      }
    }
  }

  lemma OneMoreFinished(calls: map<Node, Outcome<Value>>, running: set<Node>, node: Node)
    requires node in running && running <= calls.Keys
    ensures node !in Finished(calls, running)
    ensures Finished(calls, running - {node}) == Finished(calls, running)[node := calls[node]]
  {
  }

  /** What the completion of one more call changes in the store. */
  lemma SavedStep(store: Values, status: JobStatus, was: map<Node, Outcome<Value>>, node: Node, call: Outcome<Value>)
    requires node !in was
    ensures SavedAll(store, status, was[node := call]) ==
            if call.Done? && status.Running? && node !in SavedAll(store, status, was) then
              SavedAll(store, status, was)[node := call.value]
            else SavedAll(store, status, was)
  {
    var before, after := SavedAll(store, status, was), SavedAll(store, status, was[node := call]);
    if status.Running? && call.Done? {
      assert after.Keys == before.Keys + {node};
    } else {
      assert after.Keys == before.Keys;
    }
  }

  /** And among the errors. */
  lemma FailuresStep(status: JobStatus, was: map<Node, Outcome<Value>>, node: Node, call: Outcome<Value>)
    requires node !in was
    ensures Failures(status, was[node := call]) ==
            if call.Done? && status.Running? then Failures(status, was)
            else Failures(status, was)[node := if call.Raised? then call.code else STATE_INVALID]
  {
    var before, after := Failures(status, was), Failures(status, was[node := call]);
    if call.Done? && status.Running? {
      assert after.Keys == before.Keys;
    } else {
      assert after.Keys == before.Keys + {node};
    }
  }

  lemma KeptStep(before: Values, after: Values, status: JobStatus, was: map<Node, Outcome<Value>>, node: Node,
                 call: Outcome<Value>)
    requires node !in was
    requires forall n :: n in was && n in after ==> n in before && after[n] == before[n]
    requires before.Keys <= after.Keys
    ensures Kept(after, status, was[node := call]) ==
            if call.Done? && status.Running? && node in after then Kept(before, status, was)[node := after[node]]
            else Kept(before, status, was)
  {
  }

  lemma StoredStep(store: Values, nodes: set<Node>, todo: set<Node>, node: Node)
    requires node in todo && todo <= nodes
    ensures Stored(store, nodes - (todo - {node})) ==
            if node in store then Stored(store, nodes - todo)[node := store[node]] else Stored(store, nodes - todo)
    ensures Missing(store, nodes - (todo - {node})) ==
            if node in store then Missing(store, nodes - todo) else Missing(store, nodes - todo) + {node}
  {
    assert nodes - (todo - {node}) == (nodes - todo) + {node};
  }

  /** Taken over and returned by calls, together: every node of the wave, as stored. */
  lemma WaveMerged(values: Values, store: Values, after: Values, nodes: set<Node>, results: Values)
    requires Extends(values, store) && Extends(store, after) && Extends(results, after)
    requires results.Keys == nodes - store.Keys
    ensures var merged := values + Stored(store, nodes) + results;
            merged.Keys == values.Keys + nodes && Extends(merged, after)
  {
  }

  method LeastKey(errors: map<Node, string>) returns (first: Node)
    requires errors != map[]
    ensures FirstFailed(errors, first)
  {
    assert errors.Keys != {};
    first :| first in errors;
    var todo := errors.Keys;
    while todo != {}
      invariant first in errors && todo <= errors.Keys
      invariant forall n :: n in errors.Keys - todo ==> Rank(first) <= Rank(n)
      decreases |todo|
    {
      var node :| node in todo;
      if Rank(node) < Rank(first) {
        first := node;
      }
      todo := todo - {node};
    }
  }

  /** A stored node of the wave passes the run's re-check. */
  lemma StoredPasses(rules: Rules, store: Values, values: Values, node: Node)
    requires StoreInv(rules, store) && Extends(values, store) && node in Wave(rules, values)
    ensures Supported(rules, values, node) && (node in store ==> Accepted(rules, values, node, store[node]))
  {
    WaveIsSupported(rules, values, node);
    AcceptedFrame(rules, values, store, node);
    hide Supported, Accepted, Wave;
  }

  lemma SavedAllKeeps(rules: Rules, store: Values, values: Values, nodes: set<Node>, status: JobStatus,
                      calls: map<Node, Outcome<Value>>)
    requires StoreInv(rules, store) && Extends(values, store)
    requires nodes == Wave(rules, values) && calls.Keys == nodes - store.Keys
    requires forall n :: n in calls && calls[n].Done? ==>
               Supported(rules, values, n) && Accepted(rules, values, n, calls[n].value)
    ensures StoreInv(rules, SavedAll(store, status, calls))
    ensures Extends(store, SavedAll(store, status, calls))
  {
    var after := SavedAll(store, status, calls);
    forall n | n in after ensures Supported(rules, after, n) && Accepted(rules, after, n, after[n]) {
      if n in store {
        AcceptedFrame(rules, store, after, n);
      } else {
        AcceptedFrame(rules, values, after, n);
      }
    }
  }

  /** A parallel wave returns exactly its calls' stored values, or some call could not be saved. */
  lemma WaveResult(store: Values, status: JobStatus, calls: map<Node, Outcome<Value>>, outcome: Outcome<Values>)
    requires ParallelOutcome(store, status, calls, outcome)
    ensures var after := SavedAll(store, status, calls);
            && (outcome.Done? ==> outcome.value.Keys == calls.Keys && Extends(outcome.value, after))
            && (outcome.Raised? ==> exists n :: n in calls && (calls[n].Raised? || !status.Running?))
            && (calls == map[] ==> after == store)
  {
    var failures := Failures(status, calls);
    if failures == map[] {
      forall n | n in calls ensures calls[n].Done? && status.Running? {
        assert n !in failures;
      }
    }
  }

  lemma CompleteHasEveryWave(rules: Rules, values: Values, store: Values)
    requires Extends(values, store) && Complete(rules, store)
    ensures Wave(rules, values) <= store.Keys
  {
  }

  lemma ExtendsTransitive(a: Values, b: Values, c: Values)
    requires Extends(a, b) && Extends(b, c)
    ensures Extends(a, c)
  {
  }

  lemma WaveAtStart(rules: Rules, store: Values)
    ensures Extends(map[], store) && Wave(rules, map[]) == {Source}
  {
  }

  lemma CompleteAfterBrief(rules: Rules, before: Values, values: Values)
    requires Source in before && MapNodes(rules, before[Source]) <= before.Keys && REDUCE_NODES <= before.Keys
    requires Extends(before, values) && values.Keys == before.Keys + {Brief}
    ensures Complete(rules, values)
  {
    assert values[Source] == before[Source];
  }

  lemma WaveAfterSource(rules: Rules, values: Values)
    requires values.Keys == {Source}
    ensures Wave(rules, values) == MapNodes(rules, values[Source])
    ensures Brief !in MapNodes(rules, values[Source])
  {
    assert Visual in MapNodes(rules, values[Source]) && Source !in MapNodes(rules, values[Source]);
  }

  lemma WaveAfterMap(rules: Rules, before: Values, values: Values)
    requires before.Keys == {Source} && Extends(before, values)
    requires values.Keys == {Source} + MapNodes(rules, before[Source])
    ensures Source in values && MapNodes(rules, values[Source]) <= values.Keys && Brief !in values
    ensures Wave(rules, values) == REDUCE_NODES
  {
    assert values[Source] == before[Source];
    assert Reduce(ContentFormat) !in values;
  }

  lemma WaveAfterReduce(rules: Rules, before: Values, values: Values)
    requires Source in before && MapNodes(rules, before[Source]) <= before.Keys && Brief !in before
    requires Extends(before, values) && values.Keys == before.Keys + REDUCE_NODES
    ensures Wave(rules, values) == {Brief}
    ensures Source in values && MapNodes(rules, values[Source]) <= values.Keys && REDUCE_NODES <= values.Keys
  {
    assert values[Source] == before[Source];
  }
}
