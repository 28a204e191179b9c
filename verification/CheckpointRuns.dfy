/**
 Any number of pipeline runs over one checkpoint store: started, crashed and resumed at will, their
 loads, model calls and saves interleaved node by node, the job row changing status under them.
 */
module CheckpointRuns {
  import opened Common
  import opened CheckpointGraph

  type RunId = nat

  datatype JobStatus = Queued | Running | Succeeded | Failed

  /** Why a run raises: the job gate, a stored node failing its re-check, or the stage itself. */
  datatype Failure = ParentNotAllowed | RecheckFailed(node: Node) | StageFailed(code: string)

  datatype End = Published(publication: Value) | RaisedBy(node: Node, failure: Failure)

  datatype Process = Process(values: Values, missing: set<Node>, failed: map<Node, Failure>, end: Option<End>)

  datatype System = System(store: Values, status: JobStatus, runs: map<RunId, Process>)

  datatype Event =
    | EStart(run: RunId)
    | ELoad(run: RunId, node: Node)
    | ESave(run: RunId, node: Node, output: Value)
    | EStageFails(run: RunId, node: Node, code: string)
    | ERaise(run: RunId)
    | EPublish(run: RunId)
    | ECrash(run: RunId)
    | EJobChanges(status: JobStatus)

  predicate Active(sys: System, r: RunId) {
    r in sys.runs && sys.runs[r].end.None?
  }

  /** A value handed to a run is kept only if it passes the run's own re-check. */
  function Received(rules: Rules, p: Process, node: Node, value: Value): Process {
    if Supported(rules, p.values, node) && Accepted(rules, p.values, node, value) then
      p.(values := p.values[node := value], missing := p.missing - {node})
    else
      p.(end := Some(RaisedBy(node, RecheckFailed(node))))
  }

  function LoadedBy(rules: Rules, sys: System, p: Process, node: Node): Process {
    if !sys.status.Running? && !sys.status.Succeeded? then p.(end := Some(RaisedBy(node, ParentNotAllowed)))
    else if node in sys.store then Received(rules, p, node, sys.store[node])
    else p.(missing := p.missing + {node})
  }

  /** `save_success`: the first writer wins, later writers are handed the stored value. */
  function SavedBy(rules: Rules, sys: System, r: RunId, node: Node, output: Value): System
    requires r in sys.runs
  {
    var p := sys.runs[r];
    if !sys.status.Running? then
      sys.(runs := sys.runs[r := p.(missing := p.missing - {node}, failed := p.failed[node := ParentNotAllowed])])
    else
      var store := if node in sys.store then sys.store else sys.store[node := output];
      System(store, sys.status, sys.runs[r := Received(rules, p, node, store[node])])
  }

  function Rank(node: Node): nat {
    match node
    case Batch(i) => i
    case Brief => MAX_BATCHES
    case Contact => MAX_BATCHES + 1
    case Reduce(kind) =>
      (match kind
       case CommercialSafety => MAX_BATCHES + 2
       case ContentFormat => MAX_BATCHES + 3
       case PerformanceAudience => MAX_BATCHES + 4
       case Presentation => MAX_BATCHES + 5)
    case Source => MAX_BATCHES + 6
    case Visual => MAX_BATCHES + 7
  }

  /** The failed node whose key sorts first. */
  ghost predicate FirstFailed<T>(failed: map<Node, T>, node: Node) {
    node in failed && forall n :: n in failed ==> Rank(node) <= Rank(n)
  }

  ghost function Step(rules: Rules, sys: System, e: Event): System {
    match e
    case EStart(r) =>
      if r in sys.runs || !sys.status.Running? then sys
      else sys.(runs := sys.runs[r := Process(map[], {}, map[], None)])
    case ELoad(r, node) =>
      if !Active(sys, r) then sys
      else if node !in Wave(rules, sys.runs[r].values) - sys.runs[r].missing - sys.runs[r].failed.Keys then sys
      else sys.(runs := sys.runs[r := LoadedBy(rules, sys, sys.runs[r], node)])
    case ESave(r, node, output) =>
      if !Active(sys, r) || node !in sys.runs[r].missing || !Supported(rules, sys.runs[r].values, node)
         || !Accepted(rules, sys.runs[r].values, node, output) then sys
      else SavedBy(rules, sys, r, node, output)
    case EStageFails(r, node, code) =>
      if !Active(sys, r) || node !in sys.runs[r].missing then sys
      else
        var p := sys.runs[r];
        sys.(runs := sys.runs[r := p.(missing := p.missing - {node}, failed := p.failed[node := StageFailed(code)])])
    case ERaise(r) =>
      if !Active(sys, r) || sys.runs[r].missing != {} || sys.runs[r].failed == map[] then sys
      else
        var p := sys.runs[r];
        if node :| FirstFailed(p.failed, node) then
          sys.(runs := sys.runs[r := p.(end := Some(RaisedBy(node, p.failed[node])))])
        else sys
    case EPublish(r) =>
      if !Active(sys, r) || !Complete(rules, sys.runs[r].values) then sys
      else
        var p := sys.runs[r];
        sys.(runs := sys.runs[r := p.(end := Some(Published(Publication(rules, p.values))))])
    case ECrash(r) => sys.(runs := sys.runs - {r})
    case EJobChanges(status) => sys.(status := status)
  }

  ghost function Run(rules: Rules, sys: System, es: seq<Event>): System
    decreases |es|
  {
    if es == [] then sys else Run(rules, Step(rules, sys, es[0]), es[1..])
  }

  // ---------------------------------------------------------------- the invariant

  /** A run only holds stored values, all of them supported, and never fails a re-check. */
  ghost predicate ProcessInv(rules: Rules, store: Values, p: Process) {
    && Extends(p.values, store)
    && p.missing <= Wave(rules, p.values)
    && (forall n :: n in p.failed ==> !p.failed[n].RecheckFailed?)
    && (p.end.Some? ==> match p.end.value
                        case RaisedBy(_, failure) => !failure.RecheckFailed?
                        case Published(v) => Complete(rules, p.values) && v == Publication(rules, p.values))
  }

  ghost predicate Inv(rules: Rules, sys: System) {
    && StoreInv(rules, sys.store)
    && forall r :: r in sys.runs ==> ProcessInv(rules, sys.store, sys.runs[r])
  }

  ghost predicate Fresh(sys: System) {
    sys.store == map[] && sys.runs == map[]
  }

  lemma ProcessFrame(rules: Rules, store: Values, after: Values, p: Process)
    requires ProcessInv(rules, store, p) && Extends(store, after)
    ensures ProcessInv(rules, after, p)
  {
    hide Wave, Complete, Publication;
  }

  lemma MoreValuesShrinkWave(rules: Rules, values: Values, node: Node, value: Value, missing: set<Node>)
    requires missing <= Wave(rules, values) && node in Wave(rules, values)
    ensures missing - {node} <= Wave(rules, values[node := value])
  {
    if missing - {node} != {} {
      assert Source in values;
      assert MapNodes(rules, values[node := value][Source]) == MapNodes(rules, values[Source]);
      hide MapNodes;
    }
  }

  /** What is stored passes the re-check of any run that is handed it. */
  lemma ReceivedKeeps(rules: Rules, store: Values, p: Process, node: Node)
    requires StoreInv(rules, store) && ProcessInv(rules, store, p) && p.end.None?
    requires node in Wave(rules, p.values) && node in store
    ensures Received(rules, p, node, store[node]) ==
            p.(values := p.values[node := store[node]], missing := p.missing - {node})
    ensures ProcessInv(rules, store, Received(rules, p, node, store[node]))
  {
    WaveIsSupported(rules, p.values, node);
    AcceptedFrame(rules, p.values, store, node);
    MoreValuesShrinkWave(rules, p.values, node, store[node], p.missing);
    hide Wave, Supported, Accepted, Complete, Publication;
  }

  lemma LoadKeeps(rules: Rules, sys: System, r: RunId, node: Node)
    requires Inv(rules, sys)
    ensures Inv(rules, Step(rules, sys, ELoad(r, node)))
  {
    if Active(sys, r) && node in Wave(rules, sys.runs[r].values) {
      LoadedKeeps(rules, sys, sys.runs[r], node);
    }
    hide StoreInv, ProcessInv, LoadedBy, Wave;
  }

  lemma LoadedKeeps(rules: Rules, sys: System, p: Process, node: Node)
    requires StoreInv(rules, sys.store) && ProcessInv(rules, sys.store, p) && p.end.None?
    requires node in Wave(rules, p.values)
    ensures ProcessInv(rules, sys.store, LoadedBy(rules, sys, p, node))
  {
    if node in sys.store {
      ReceivedKeeps(rules, sys.store, p, node);
    }
    hide StoreInv, Received, Wave, Complete, Publication, Extends;
  }

  lemma SaveKeeps(rules: Rules, sys: System, r: RunId, node: Node, output: Value)
    requires Inv(rules, sys)
    ensures Inv(rules, Step(rules, sys, ESave(r, node, output)))
    ensures Extends(sys.store, Step(rules, sys, ESave(r, node, output)).store)
  {
    if Active(sys, r) && node in sys.runs[r].missing && Supported(rules, sys.runs[r].values, node)
       && Accepted(rules, sys.runs[r].values, node, output) && sys.status.Running?
    {
      var p := sys.runs[r];
      var store := if node in sys.store then sys.store else sys.store[node := output];
      StoreAfterSave(rules, sys.store, p, node, output, store);
      forall q | q in sys.runs ensures ProcessInv(rules, store, sys.runs[q]) {
        ProcessFrame(rules, sys.store, store, sys.runs[q]);
      }
      ReceivedKeeps(rules, store, p, node);
      hide ProcessInv, StoreInv, Received, Wave, Supported, Accepted;
    } else {
      hide StoreInv, Received, Wave, Complete, Publication, Supported, Accepted;
    }
  }

  lemma StoreAfterSave(rules: Rules, before: Values, p: Process, node: Node, output: Value, store: Values)
    requires StoreInv(rules, before) && Extends(p.values, before)
    requires Supported(rules, p.values, node) && Accepted(rules, p.values, node, output)
    requires store == if node in before then before else before[node := output]
    ensures StoreInv(rules, store) && Extends(before, store)
  {
    AcceptedFrame(rules, p.values, before, node);
    if node !in before {
      SavedKeepsStore(rules, before, node, output);
    }
    hide StoreInv, Supported, Accepted;
  }

  lemma StepKeepsInv(rules: Rules, sys: System, e: Event)
    requires Inv(rules, sys)
    ensures Inv(rules, Step(rules, sys, e))
    ensures Extends(sys.store, Step(rules, sys, e).store)
  {
    match e
    case ELoad(r, node) => LoadKeeps(rules, sys, r, node);
    case ESave(r, node, output) => SaveKeeps(rules, sys, r, node, output);
    case _ => hide StoreInv, Wave, Complete, Publication, Supported, Accepted;
  }

  /** Cells are write-once: whatever a run of events does, a stored value stays. */
  lemma {:induction false} RunKeepsInv(rules: Rules, sys: System, es: seq<Event>)
    requires Inv(rules, sys)
    ensures Inv(rules, Run(rules, sys, es))
    ensures Extends(sys.store, Run(rules, sys, es).store)
    decreases |es|
  {
    hide Inv, Step;
    if es != [] {
      StepKeepsInv(rules, sys, es[0]);
      RunKeepsInv(rules, Step(rules, sys, es[0]), es[1..]);
    }
  }

  // ---------------------------------------------------------------- agreement

  /**
   Every two runs, alive at the same time or not, see the same value at every node they both
   reach, and if both complete they publish the same thing.
   */
  lemma RunsAgree(rules: Rules, start: System, es: seq<Event>, more: seq<Event>, r: RunId, s: RunId, node: Node)
    requires Fresh(start)
    requires r in Run(rules, start, es).runs && s in Run(rules, Run(rules, start, es), more).runs
    ensures var earlier := Run(rules, start, es).runs[r];
            var later := Run(rules, Run(rules, start, es), more).runs[s];
            && (node in earlier.values && node in later.values ==> earlier.values[node] == later.values[node])
            && (earlier.end.Some? && earlier.end.value.Published? && later.end.Some? && later.end.value.Published? ==>
                  earlier.end.value == later.end.value)
  {
    RunKeepsInv(rules, start, es);
    var sys := Run(rules, start, es);
    RunKeepsInv(rules, sys, more);
    var after := Run(rules, sys, more);
    var p, q := sys.runs[r], after.runs[s];
    hide Run, StoreInv, Wave, Publication;
    assert Extends(p.values, after.store);
    if p.end.Some? && p.end.value.Published? && q.end.Some? && q.end.value.Published? {
      PublicationFrame(rules, p.values, after.store);
      PublicationFrame(rules, q.values, after.store);
    }
  }

  /**
   No run ever fails the identity or evidence re-check of a stored node, nor the binding re-check
   of a stored brief: what a run raises comes from the job gate or from its own model calls.
   */
  lemma RecheckNeverFails(rules: Rules, start: System, es: seq<Event>, r: RunId)
    requires Fresh(start) && r in Run(rules, start, es).runs
    ensures var p := Run(rules, start, es).runs[r];
            && (p.end.Some? && p.end.value.RaisedBy? ==> !p.end.value.failure.RecheckFailed?)
            && (forall n :: n in p.values ==>
                  && Supported(rules, Run(rules, start, es).store, n)
                  && Accepted(rules, Run(rules, start, es).store, n, p.values[n]))
  {
    RunKeepsInv(rules, start, es);
    hide Run, Wave, Complete, Publication, Supported, Accepted;
  }

  // ---------------------------------------------------------------- what is stored and published, spelled out

  /** The batch cells in index order: one to five of them, and no others are stored. */
  ghost predicate OrderedDigests(store: Values, digests: seq<Value>) {
    && 1 <= |digests| <= 5
    && (forall i: nat :: Batch(i) in store <==> i < |digests|)
    && forall i: nat :: i < |digests| ==> digests[i] == store[Batch(i)]
  }

  /** The four reduction cells, in the order the brief prompt and the publication take them. */
  ghost predicate FourReductions(store: Values, reductions: seq<Value>) {
    && |reductions| == 4
    && Reduce(ContentFormat) in store && reductions[0] == store[Reduce(ContentFormat)]
    && Reduce(Presentation) in store && reductions[1] == store[Reduce(Presentation)]
    && Reduce(PerformanceAudience) in store && reductions[2] == store[Reduce(PerformanceAudience)]
    && Reduce(CommercialSafety) in store && reductions[3] == store[Reduce(CommercialSafety)]
  }

  /** Every cell was checked against exactly the cells upstream of it. */
  ghost predicate Checked(rules: Rules, store: Values) {
    && (Source in store ==> rules.identityOk(store[Source]))
    && (forall i :: Batch(i) in store ==> Source in store && rules.digestOk(store[Source], i, store[Batch(i)]))
    && (forall kind :: Reduce(kind) in store ==>
          && Visual in store
          && exists digests ::
               && OrderedDigests(store, digests)
               && rules.reductionOk(kind, digests, store[Visual], store[Reduce(kind)]))
    && (Brief in store ==>
          && Contact in store
          && exists reductions ::
               FourReductions(store, reductions) && rules.briefOk(reductions, store[Contact], store[Brief]))
  }

  /** The publication made of exactly the stored cells. */
  ghost predicate PublishedFrom(rules: Rules, store: Values, publication: Value) {
    && Source in store && Visual in store && Contact in store && Brief in store
    && exists reductions ::
         && FourReductions(store, reductions)
         && publication == rules.publish(store[Source], store[Visual], store[Contact], reductions, store[Brief])
  }

  /**
   Whatever runs have come and gone, every stored cell was checked against exactly the cells upstream of it: a
   source against the job, a batch against the source, a reduction against all batches in order and the visual
   analysis, the brief against the four reductions and the contacts.
   */
  lemma StoredCellsAreChecked(rules: Rules, start: System, es: seq<Event>)
    requires Fresh(start)
    ensures Checked(rules, Run(rules, start, es).store)
  {
    RunKeepsInv(rules, start, es);
    var store := Run(rules, start, es).store;
    hide Run, Step, ProcessInv;
    CellsAreChecked(rules, store);
  }

  lemma CellsAreChecked(rules: Rules, store: Values)
    requires StoreInv(rules, store)
    ensures Checked(rules, store)
  {
    forall kind | Reduce(kind) in store
      ensures Visual in store
      ensures exists digests ::
                && OrderedDigests(store, digests)
                && rules.reductionOk(kind, digests, store[Visual], store[Reduce(kind)])
    {
      assert Supported(rules, store, Reduce(kind)) && Accepted(rules, store, Reduce(kind), store[Reduce(kind)]);
      assert Visual in MapNodes(rules, store[Source]);
      DigestsAreOrdered(rules, store, store);
      hide StoreInv, MapNodes;
    }
    if Brief in store {
      assert Supported(rules, store, Brief) && Accepted(rules, store, Brief, store[Brief]);
      hide StoreInv, MapNodes;
      assert FourReductions(store, Reductions(store));
    }
  }

  lemma DigestsAreOrdered(rules: Rules, values: Values, store: Values)
    requires StoreInv(rules, store) && Extends(values, store)
    requires Source in values && MapNodes(rules, values[Source]) <= values.Keys
    ensures OrderedDigests(values, Digests(rules, values))
  {
    forall i: nat ensures Batch(i) in values <==> i < BatchCount(rules.videoCount(values[Source])) {
      if i < BatchCount(rules.videoCount(values[Source])) {
        assert Batch(i) in MapNodes(rules, values[Source]);
      }
      if Batch(i) in values {
        assert Supported(rules, store, Batch(i));
      }
    }
    hide StoreInv, MapNodes, BatchCount;
  }

  /** What a run publishes is made of exactly the stored cells. */
  lemma PublicationIsComputed(rules: Rules, start: System, es: seq<Event>, r: RunId)
    requires Fresh(start) && r in Run(rules, start, es).runs
    ensures var store, end := Run(rules, start, es).store, Run(rules, start, es).runs[r].end;
            end.Some? && end.value.Published? ==> PublishedFrom(rules, store, end.value.publication)
  {
    RunKeepsInv(rules, start, es);
    var sys := Run(rules, start, es);
    var p := sys.runs[r];
    hide Run, Step, StoreInv;
    if p.end.Some? && p.end.value.Published? {
      PublicationFrame(rules, p.values, sys.store);
      PublicationSpelled(rules, sys.store);
    }
  }

  lemma PublicationSpelled(rules: Rules, store: Values)
    requires Complete(rules, store)
    ensures PublishedFrom(rules, store, Publication(rules, store))
  {
    assert Visual in MapNodes(rules, store[Source]) && Contact in MapNodes(rules, store[Source]);
    hide MapNodes;
    assert FourReductions(store, Reductions(store));
  }

  /** An output passes its stage's check against the cells a run holds. */
  ghost predicate Passes(rules: Rules, values: Values, node: Node, output: Value) {
    match node
    case Source => rules.identityOk(output)
    case Batch(i) => Source in values ==> rules.digestOk(values[Source], i, output)
    case Visual => true
    case Contact => true
    case Reduce(kind) =>
      Visual in values ==>
        forall digests :: OrderedDigests(values, digests) ==>
          rules.reductionOk(kind, digests, values[Visual], output)
    case Brief =>
      Contact in values ==>
        forall reductions :: FourReductions(values, reductions) ==>
          rules.briefOk(reductions, values[Contact], output)
  }

  lemma PassingIsAccepted(rules: Rules, values: Values, store: Values, node: Node, output: Value)
    requires StoreInv(rules, store) && Extends(values, store) && Supported(rules, values, node)
    requires Passes(rules, values, node, output)
    ensures Accepted(rules, values, node, output)
  {
    match node
    case Reduce(kind) =>
      assert Visual in MapNodes(rules, values[Source]);
      DigestsAreOrdered(rules, values, store);
    case Brief =>
      assert FourReductions(values, Reductions(values));
    case _ =>
  }

  /** A completed call of a running job fills its cell if that is still empty, and takes what it finds if not. */
  lemma SaveFillsCell(rules: Rules, sys: System, r: RunId, node: Node, output: Value)
    requires Inv(rules, sys) && Active(sys, r) && node in sys.runs[r].missing && sys.status.Running?
    requires Passes(rules, sys.runs[r].values, node, output)
    ensures var after := Step(rules, sys, ESave(r, node, output));
            && after.store == (if node in sys.store then sys.store else sys.store[node := output])
            && Active(after, r)
            && after.runs[r].values == sys.runs[r].values[node := after.store[node]]
  {
    var p := sys.runs[r];
    WaveIsSupported(rules, p.values, node);
    PassingIsAccepted(rules, p.values, sys.store, node, output);
    hide Passes;
    var store := if node in sys.store then sys.store else sys.store[node := output];
    StoreAfterSave(rules, sys.store, p, node, output, store);
    ProcessFrame(rules, sys.store, store, p);
    ReceivedKeeps(rules, store, p, node);
    hide StoreInv, Received, Wave, Supported, Accepted;
  }

  /**
   What a run may always do: start on a running job, call what it does not find stored, record a failed call, and
   raise the first failure once no call is open.
   */
  lemma RunsProceed(rules: Rules, sys: System, r: RunId, node: Node, code: string)
    ensures r !in sys.runs && sys.status == Running ==>
              Step(rules, sys, EStart(r)) == sys.(runs := sys.runs[r := Process(map[], {}, map[], None)])
    ensures r in sys.runs && sys.runs[r].end == None ==>
              var p := sys.runs[r];
              && (node in Wave(rules, p.values) - p.missing - p.failed.Keys && node !in sys.store
                  && sys.status in {Running, Succeeded} ==>
                    Step(rules, sys, ELoad(r, node)) == sys.(runs := sys.runs[r := p.(missing := p.missing + {node})]))
              && (node in p.missing ==>
                    Step(rules, sys, EStageFails(r, node, code))
                    == sys.(runs := sys.runs[r := p.(missing := p.missing - {node},
                                                     failed := p.failed[node := StageFailed(code)])]))
              && (p.missing == {} && FirstFailed(p.failed, node) && UniqueFirst(p.failed, node) ==>
                    Step(rules, sys, ERaise(r))
                    == sys.(runs := sys.runs[r := p.(end := Some(RaisedBy(node, p.failed[node])))]))
  {
    hide Inv, Wave, Complete, Publication, Received;
  }

  lemma CompleteRunPublishes(rules: Rules, sys: System, r: RunId)
    requires Inv(rules, sys) && Active(sys, r) && Wave(rules, sys.runs[r].values) == {}
    ensures var after := Step(rules, sys, EPublish(r));
            && after.store == sys.store && r in after.runs && after.runs[r].end.Some?
            && after.runs[r].end.value.Published?
            && PublishedFrom(rules, sys.store, after.runs[r].end.value.publication)
  {
    var p := sys.runs[r];
    WaveEndsComplete(rules, p.values);
    PublicationFrame(rules, p.values, sys.store);
    PublicationSpelled(rules, sys.store);
    hide StoreInv, Wave, Complete, Publication, PublishedFrom, Extends;
  }

  ghost predicate UniqueFirst(failed: map<Node, Failure>, node: Node) {
    forall n :: FirstFailed(failed, n) ==> n == node
  }

  // ---------------------------------------------------------------- the order of node keys

  /** The text a node is stored under. */
  function KeyText(node: Node): string {
    match node
    case Source => "source:v1"
    case Batch(i) => "batch:v1:" + [('0' as int + i / 10 % 10) as char, ('0' as int + i % 10) as char]
    case Visual => "visual:v1"
    case Contact => "contact:v2"
    case Reduce(ContentFormat) => "reduce:v1:content-format"
    case Reduce(Presentation) => "reduce:v1:presentation"
    case Reduce(PerformanceAudience) => "reduce:v1:performance-audience"
    case Reduce(CommercialSafety) => "reduce:v1:commercial-safety"
    case Brief => "brief:v2"
  }

  /** Texts that first differ at `at`, in the order of the characters there. */
  predicate DifferAt(a: string, b: string, at: nat) {
    at < |a| && at < |b| && a[..at] == b[..at] && a[at] < b[at]
  }

  /** Ranks order the nodes of the graph as their stored keys are ordered as texts. */
  lemma RanksFollowKeys(a: Node, b: Node) returns (at: nat)
    requires Rank(a) < Rank(b) && (a.Batch? ==> a.index < 5) && (b.Batch? ==> b.index < 5)
    ensures DifferAt(KeyText(a), KeyText(b), at)
  {
    if a.Batch? && b.Batch? {
      at := 10;
    } else if a.Reduce? && b.Reduce? {
      at := ReductionKeys(a.kind, b.kind);
    } else {
      at := if a.Batch? && b.Brief? then 1 else 0;
    }
  }

  lemma ReductionKeys(a: Kind, b: Kind) returns (at: nat)
    requires Rank(Reduce(a)) < Rank(Reduce(b))
    ensures DifferAt(KeyText(Reduce(a)), KeyText(Reduce(b)), at)
  {
    at := if a.CommercialSafety? && b.ContentFormat? then 12 else if a.PerformanceAudience? then 11 else 10;
  }

  // ---------------------------------------------------------------- resuming

  /** A resumed run finds every stored node and calls no model for it. */
  lemma StoredNodesAreNotRecomputed(rules: Rules, sys: System, r: RunId, node: Node)
    requires Inv(rules, sys) && Active(sys, r) && node in sys.store
    requires node in Wave(rules, sys.runs[r].values) - sys.runs[r].missing - sys.runs[r].failed.Keys
    requires sys.status.Running? || sys.status.Succeeded?
    ensures var after := Step(rules, sys, ELoad(r, node));
            && after.store == sys.store && Active(after, r)
            && after.runs[r].values == sys.runs[r].values[node := sys.store[node]]
            && after.runs[r].missing == sys.runs[r].missing
  {
    ReceivedKeeps(rules, sys.store, sys.runs[r], node);
    hide Inv, Received, Wave;
  }
}
