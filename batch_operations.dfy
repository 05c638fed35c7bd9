/**
 * The batch operation engine: an ordered list of operations run one after the
 * other under a stop-on-error policy, the outcome of each recorded on the
 * operation itself, and a rollback sweep over the successful ones in reverse
 * order. RepositoryBatchCreator specialises it to "create the remote
 * repository, then the local directory" with a rollback that only removes the
 * local directory.
 *
 * The callables of the source are actions whose result (success, or the
 * message of the exception they raise) comes from an oracle. Their visible
 * effects act on a World: the local filesystem as a set of paths, the
 * creator's lists of created repositories and directories, and the record of
 * which actions were invoked, in order.
 */
module BatchOperations {
  import opened Wrappers
  import Text

  type Path = string

  datatype RepoRef = RepoRef(owner: string, name: string)

  /** What invoking a callable did: it returned, or it raised an exception with this message. */
  datatype Outcome = Returned | Raised(message: string)

  /** The execute callable of an operation. */
  datatype ExecuteAction =
    | Callable(id: nat)
    | CreateRepository(owner: string, name: string, description: string, isPrivate: bool, localPath: Option<Path>)

  /** The rollback callable of an operation. */
  datatype RollbackAction =
    | UndoCallable(id: nat)
    | RemoveLocalDirectory(owner: string, name: string, localPath: Option<Path>)

  /** One invocation, naming the operation by its position in the batch. */
  datatype Call = Executed(index: nat) | RolledBack(index: nat)

  datatype World = World(fs: set<Path>, createdRepos: seq<RepoRef>, createdLocalDirs: seq<Path>, calls: seq<Call>)

  datatype Effect = Effect(outcome: Outcome, world: World)

  /** Metadata values are opaque to the engine; `local_path` may be None. */
  datatype MetaValue = Text(text: string) | Null | Opaque(id: nat)

  type Metadata = map<string, MetaValue>

  datatype Operation = Operation(
    name: string,
    execute: ExecuteAction,
    rollback: Option<RollbackAction>,
    metadata: Metadata,
    executed: bool,
    success: bool,
    error: Option<string>)

  // ---------------------------------------------------------------------------
  // Actions

  /** p is dir itself or lies beneath it. */
  predicate Under(dir: Path, p: Path) {
    p == dir || Text.IsPrefix(dir + "/", p)
  }

  /** `shutil.rmtree(dir)`: dir and everything beneath it disappear. */
  function RemoveTree(fs: set<Path>, dir: Path): (r: set<Path>)
    ensures forall p :: p in r <==> p in fs && !Under(dir, p)
  {
    set p | p in fs && !Under(dir, p)
  }

  /** Running an execute callable. The remote create may fail; the local mkdir is taken to succeed. */
  function Perform(a: ExecuteAction, answer: Outcome, w: World): Effect {
    match a
    case Callable(_) => Effect(answer, w)
    case CreateRepository(owner, name, _, _, localPath) =>
      if answer.Raised? then Effect(answer, w)
      else
        var w1 := w.(createdRepos := w.createdRepos + [RepoRef(owner, name)]);
        if localPath.Some? then
          Effect(Returned, w1.(fs := w1.fs + {localPath.value}, createdLocalDirs := w1.createdLocalDirs + [localPath.value]))
        else Effect(Returned, w1)
  }

  /** Running a rollback callable. Removing the directory may fail; a missing directory is left alone. */
  function Undo(a: RollbackAction, answer: Outcome, w: World): Effect {
    match a
    case UndoCallable(_) => Effect(answer, w)
    case RemoveLocalDirectory(_, _, localPath) =>
      if localPath.Some? && localPath.value in w.fs then
        if answer.Returned? then Effect(Returned, w.(fs := RemoveTree(w.fs, localPath.value))) else Effect(answer, w)
      else Effect(Returned, w)
  }

  /** Creating a repository records it only when the remote create succeeds, then records
      the local directory exactly when a path was given; its outcome is the remote call's. */
  lemma CreateRepositoryEffect(owner: string, name: string, description: string, isPrivate: bool,
                               localPath: Option<Path>, answer: Outcome, w: World)
    ensures var e := Perform(CreateRepository(owner, name, description, isPrivate, localPath), answer, w);
      && e.outcome == answer
      && e.world.calls == w.calls
      && (answer.Raised? ==> e.world == w)
      && (answer.Returned? ==>
            && e.world.createdRepos == w.createdRepos + [RepoRef(owner, name)]
            && e.world.createdLocalDirs == w.createdLocalDirs + (if localPath.Some? then [localPath.value] else [])
            && e.world.fs == w.fs + (if localPath.Some? then {localPath.value} else {}))
  {
  }

  /** The creator's rollback never touches the remote repository or the creator's records;
      it removes the local directory and what is beneath it, and nothing else. */
  lemma RemoveLocalDirectoryEffect(owner: string, name: string, localPath: Option<Path>, answer: Outcome, w: World)
    ensures var e := Undo(RemoveLocalDirectory(owner, name, localPath), answer, w);
      && e.world.createdRepos == w.createdRepos
      && e.world.createdLocalDirs == w.createdLocalDirs
      && e.world.calls == w.calls
      && e.world.fs <= w.fs
      && (forall p :: p in w.fs && !(localPath.Some? && Under(localPath.value, p)) ==> p in e.world.fs)
      && (localPath.Some? && localPath.value in w.fs && answer.Returned? ==>
            e.outcome == Returned && forall p :: p in e.world.fs ==> !Under(localPath.value, p))
      && (e.outcome.Raised? <==> localPath.Some? && localPath.value in w.fs && answer.Raised?)
  {
  }

  // ---------------------------------------------------------------------------
  // Executing a batch

  /** s begins with p. */
  predicate Extends<T(==)>(s: seq<T>, p: seq<T>) {
    |p| <= |s| && s[..|p|] == p
  }

  predicate Positions(xs: seq<nat>, n: nat) {
    forall t :: 0 <= t < |xs| ==> xs[t] < n
  }

  /** The manager's three lists: executed_operations and failed_operations hold positions
      in operations, standing for the shared references of the source. */
  datatype BatchState = BatchState(
    operations: seq<Operation>,
    executedOperations: seq<nat>,
    failedOperations: seq<nat>,
    world: World)

  function NewOperation(name: string, execute: ExecuteAction, rollback: Option<RollbackAction>, metadata: Metadata): Operation {
    Operation(name, execute, rollback, metadata, false, false, None)
  }

  /** The fields an attempt records on the operation. */
  function Attempted(op: Operation, out: Outcome): (r: Operation)
    ensures r.name == op.name && r.execute == op.execute && r.rollback == op.rollback && r.metadata == op.metadata
    ensures r.executed && (r.success <==> out.Returned?)
    ensures r.error == if out.Raised? then Some(out.message) else op.error
  {
    if out.Returned? then op.(executed := true, success := true)
    else op.(executed := true, success := false, error := Some(out.message))
  }

  datatype Step = Step(state: BatchState, outcome: Outcome)

  /** Attempting operation i: record the invocation, run its execute callable, record the
      outcome on the operation and append its position to the matching list. */
  function Attempt(b: BatchState, i: nat, oracle: nat -> Outcome): (s: Step)
    requires i < |b.operations|
    ensures s.outcome == oracle(i)
    ensures s.state.operations == b.operations[i := Attempted(b.operations[i], oracle(i))]
    ensures s.state.executedOperations == b.executedOperations + (if oracle(i).Returned? then [i] else [])
    ensures s.state.failedOperations == b.failedOperations + (if oracle(i).Raised? then [i] else [])
    ensures s.state.world.calls == b.world.calls + [Executed(i)]
  {
    var w := b.world.(calls := b.world.calls + [Executed(i)]);
    var e := Perform(b.operations[i].execute, oracle(i), w);
    var ops := b.operations[i := Attempted(b.operations[i], e.outcome)];
    if e.outcome.Returned? then
      Step(BatchState(ops, b.executedOperations + [i], b.failedOperations, e.world), e.outcome)
    else
      Step(BatchState(ops, b.executedOperations, b.failedOperations + [i], e.world), e.outcome)
  }

  /** An attempt only adds created repositories and paths. */
  lemma AttemptOnlyAdds(b: BatchState, i: nat, oracle: nat -> Outcome)
    requires i < |b.operations|
    ensures var w := Attempt(b, i, oracle).state.world;
      Extends(w.createdRepos, b.world.createdRepos) && b.world.fs <= w.fs
  {
  }

  /** execute_all from position i on. */
  function Run(b: BatchState, i: nat, stopOnError: bool, oracle: nat -> Outcome): BatchState
    requires i <= |b.operations|
    decreases |b.operations| - i
  {
    if i == |b.operations| then b
    else
      var s := Attempt(b, i, oracle);
      if s.outcome.Raised? && stopOnError then s.state
      else Run(s.state, i + 1, stopOnError, oracle)
  }

  /** The positions lo, lo+1, ..., hi-1. */
  function Range(lo: nat, hi: nat): (r: seq<nat>)
    ensures |r| == if lo <= hi then hi - lo else 0
    ensures forall t :: 0 <= t < |r| ==> r[t] == lo + t
    decreases hi - lo
  {
    if lo >= hi then [] else [lo] + Range(lo + 1, hi)
  }

  function ExecutedCalls(lo: nat, hi: nat): seq<Call>
    decreases hi - lo
  {
    if lo >= hi then [] else [Executed(lo)] + ExecutedCalls(lo + 1, hi)
  }

  /** The positions in [lo, hi) whose execute the oracle lets succeed. */
  function Passing(oracle: nat -> Outcome, lo: nat, hi: nat): seq<nat>
    decreases hi - lo
  {
    if lo >= hi then [] else (if oracle(lo).Returned? then [lo] else []) + Passing(oracle, lo + 1, hi)
  }

  /** The positions in [lo, hi) whose execute the oracle makes raise. */
  function Failing(oracle: nat -> Outcome, lo: nat, hi: nat): seq<nat>
    decreases hi - lo
  {
    if lo >= hi then [] else (if oracle(lo).Raised? then [lo] else []) + Failing(oracle, lo + 1, hi)
  }

  /** The first position in [lo, hi) whose execute raises, or hi when there is none. */
  function FirstFailure(oracle: nat -> Outcome, lo: nat, hi: nat): (k: nat)
    requires lo <= hi
    ensures lo <= k <= hi
    ensures forall j :: lo <= j < k ==> oracle(j).Returned?
    ensures k < hi ==> oracle(k).Raised?
    decreases hi - lo
  {
    if lo == hi then hi else if oracle(lo).Raised? then lo else FirstFailure(oracle, lo + 1, hi)
  }

  /** Each position of [lo, hi) is either passing or failing, never both. */
  lemma {:induction false} PartitionOfOutcomes(oracle: nat -> Outcome, lo: nat, hi: nat)
    requires lo <= hi
    ensures |Passing(oracle, lo, hi)| + |Failing(oracle, lo, hi)| == hi - lo
    ensures forall j :: j in Passing(oracle, lo, hi) <==> lo <= j < hi && oracle(j).Returned?
    ensures forall j :: j in Failing(oracle, lo, hi) <==> lo <= j < hi && oracle(j).Raised?
    decreases hi - lo
  {
    if lo < hi {
      PartitionOfOutcomes(oracle, lo + 1, hi);
    }
  }

  /** With stop_on_error false every operation from i on is attempted, in order: each records
      its own outcome, successes and failures are appended in position order, and nothing
      before i changes. */
  lemma RunToEnd(b: BatchState, i: nat, oracle: nat -> Outcome)
    requires i <= |b.operations|
    ensures var r := Run(b, i, false, oracle);
      && |r.operations| == |b.operations|
      && (forall j :: 0 <= j < i ==> r.operations[j] == b.operations[j])
      && (forall j :: i <= j < |b.operations| ==> r.operations[j] == Attempted(b.operations[j], oracle(j)))
      && r.executedOperations == b.executedOperations + Passing(oracle, i, |b.operations|)
      && r.failedOperations == b.failedOperations + Failing(oracle, i, |b.operations|)
      && r.world.calls == b.world.calls + ExecutedCalls(i, |b.operations|)
  {
    RunToEndOperations(b, i, oracle);
    RunToEndExecuted(b, i, oracle);
    RunToEndFailed(b, i, oracle);
    RunToEndCalls(b, i, oracle);
  }

  lemma {:induction false} RunToEndOperations(b: BatchState, i: nat, oracle: nat -> Outcome)
    requires i <= |b.operations|
    ensures var r := Run(b, i, false, oracle);
      && |r.operations| == |b.operations|
      && (forall j :: 0 <= j < i ==> r.operations[j] == b.operations[j])
      && (forall j :: i <= j < |b.operations| ==> r.operations[j] == Attempted(b.operations[j], oracle(j)))
    decreases |b.operations| - i
  {
    if i < |b.operations| {
      RunToEndOperations(Attempt(b, i, oracle).state, i + 1, oracle);
    }
  }

  lemma {:induction false} RunToEndExecuted(b: BatchState, i: nat, oracle: nat -> Outcome)
    requires i <= |b.operations|
    ensures Run(b, i, false, oracle).executedOperations == b.executedOperations + Passing(oracle, i, |b.operations|)
    decreases |b.operations| - i
  {
    var n := |b.operations|;
    if i < n {
      var s := Attempt(b, i, oracle);
      RunToEndExecuted(s.state, i + 1, oracle);
      var x := if oracle(i).Returned? then [i] else [];
      assert Passing(oracle, i, n) == x + Passing(oracle, i + 1, n);
      assert b.executedOperations + x + Passing(oracle, i + 1, n) == b.executedOperations + Passing(oracle, i, n);
    }
  }

  lemma {:induction false} RunToEndFailed(b: BatchState, i: nat, oracle: nat -> Outcome)
    requires i <= |b.operations|
    ensures Run(b, i, false, oracle).failedOperations == b.failedOperations + Failing(oracle, i, |b.operations|)
    decreases |b.operations| - i
  {
    var n := |b.operations|;
    if i < n {
      var s := Attempt(b, i, oracle);
      RunToEndFailed(s.state, i + 1, oracle);
      var x := if oracle(i).Raised? then [i] else [];
      assert Failing(oracle, i, n) == x + Failing(oracle, i + 1, n);
      assert b.failedOperations + x + Failing(oracle, i + 1, n) == b.failedOperations + Failing(oracle, i, n);
    }
  }

  lemma {:induction false} RunToEndCalls(b: BatchState, i: nat, oracle: nat -> Outcome)
    requires i <= |b.operations|
    ensures Run(b, i, false, oracle).world.calls == b.world.calls + ExecutedCalls(i, |b.operations|)
    decreases |b.operations| - i
  {
    var n := |b.operations|;
    if i < n {
      var s := Attempt(b, i, oracle);
      RunToEndCalls(s.state, i + 1, oracle);
      assert b.world.calls + [Executed(i)] + ExecutedCalls(i + 1, n) == b.world.calls + ExecutedCalls(i, n);
    }
  }

  /** With stop_on_error true, if the first failure from i on is at k, the operations i..k-1
      succeed, k records its failure, and no operation after k is changed. */
  lemma {:induction false} RunStopsOperations(b: BatchState, i: nat, oracle: nat -> Outcome)
    requires i <= |b.operations|
    ensures var r := Run(b, i, true, oracle);
      var n := |b.operations|;
      var k := FirstFailure(oracle, i, n);
      && |r.operations| == n
      && (forall j :: 0 <= j < i ==> r.operations[j] == b.operations[j])
      && (forall j :: i <= j < k ==> r.operations[j] == Attempted(b.operations[j], Returned))
      && (k < n ==> r.operations[k] == Attempted(b.operations[k], oracle(k)))
      && (forall j :: k < j < n ==> r.operations[j] == b.operations[j])
    decreases |b.operations| - i
  {
    if i < |b.operations| && oracle(i).Returned? {
      RunStopsOperations(Attempt(b, i, oracle).state, i + 1, oracle);
    }
  }

  /** With stop_on_error true, if the first failure from i on is at k, exactly i..k-1 join
      the successes, k is the only new failure, and nothing after k is invoked. */
  lemma RunStopsLists(b: BatchState, i: nat, oracle: nat -> Outcome)
    requires i <= |b.operations|
    ensures var r := Run(b, i, true, oracle);
      var n := |b.operations|;
      var k := FirstFailure(oracle, i, n);
      && r.executedOperations == b.executedOperations + Range(i, k)
      && r.failedOperations == b.failedOperations + (if k < n then [k] else [])
      && r.world.calls == b.world.calls + ExecutedCalls(i, if k < n then k + 1 else n)
  {
    RunStopsExecuted(b, i, oracle);
    RunStopsFailed(b, i, oracle);
    RunStopsCalls(b, i, oracle);
  }

  lemma {:induction false} RunStopsExecuted(b: BatchState, i: nat, oracle: nat -> Outcome)
    requires i <= |b.operations|
    ensures Run(b, i, true, oracle).executedOperations
            == b.executedOperations + Range(i, FirstFailure(oracle, i, |b.operations|))
    decreases |b.operations| - i
  {
    var n := |b.operations|;
    if i < n && oracle(i).Returned? {
      var s := Attempt(b, i, oracle);
      RunStopsExecuted(s.state, i + 1, oracle);
      var k := FirstFailure(oracle, i, n);
      assert k == FirstFailure(oracle, i + 1, n);
      assert [i] + Range(i + 1, k) == Range(i, k);
      assert b.executedOperations + [i] + Range(i + 1, k) == b.executedOperations + Range(i, k);
    }
  }

  lemma {:induction false} RunStopsFailed(b: BatchState, i: nat, oracle: nat -> Outcome)
    requires i <= |b.operations|
    ensures var n := |b.operations|;
      var k := FirstFailure(oracle, i, n);
      Run(b, i, true, oracle).failedOperations == b.failedOperations + (if k < n then [k] else [])
    decreases |b.operations| - i
  {
    var n := |b.operations|;
    if i < n && oracle(i).Returned? {
      var s := Attempt(b, i, oracle);
      RunStopsFailed(s.state, i + 1, oracle);
      assert FirstFailure(oracle, i, n) == FirstFailure(oracle, i + 1, n);
    }
  }

  lemma {:induction false} RunStopsCalls(b: BatchState, i: nat, oracle: nat -> Outcome)
    requires i <= |b.operations|
    ensures var n := |b.operations|;
      var k := FirstFailure(oracle, i, n);
      Run(b, i, true, oracle).world.calls == b.world.calls + ExecutedCalls(i, if k < n then k + 1 else n)
    decreases |b.operations| - i
  {
    var n := |b.operations|;
    if i < n {
      var s := Attempt(b, i, oracle);
      if oracle(i).Returned? {
        RunStopsCalls(s.state, i + 1, oracle);
        var k := FirstFailure(oracle, i, n);
        assert k == FirstFailure(oracle, i + 1, n);
        var e := if k < n then k + 1 else n;
        assert b.world.calls + [Executed(i)] + ExecutedCalls(i + 1, e) == b.world.calls + ExecutedCalls(i, e);
      } else {
        assert ExecutedCalls(i, i + 1) == [Executed(i)];
      }
    }
  }

  /** execute_all never forgets a created repository or removes a path. */
  lemma {:induction false} RunOnlyAdds(b: BatchState, i: nat, stopOnError: bool, oracle: nat -> Outcome)
    requires i <= |b.operations|
    ensures var r := Run(b, i, stopOnError, oracle);
      && Extends(r.world.createdRepos, b.world.createdRepos)
      && b.world.fs <= r.world.fs
    decreases |b.operations| - i
  {
    if i < |b.operations| {
      var s := Attempt(b, i, oracle);
      AttemptOnlyAdds(b, i, oracle);
      if !(s.outcome.Raised? && stopOnError) {
        RunOnlyAdds(s.state, i + 1, stopOnError, oracle);
        var r := Run(s.state, i + 1, stopOnError, oracle);
        var m := |b.world.createdRepos|;
        assert r.world.createdRepos[..m] == s.state.world.createdRepos[..|s.state.world.createdRepos|][..m];
      }
    }
  }

  // ---------------------------------------------------------------------------
  // Summaries

  datatype Summary = Summary(total: nat, executed: nat, succeeded: nat, failed: nat)

  /** How many of the listed positions hold an operation whose success flag is set. */
  function CountSucceeded(ops: seq<Operation>, xs: seq<nat>): (r: nat)
    requires Positions(xs, |ops|)
    ensures r <= |xs|
    decreases |xs|
  {
    if |xs| == 0 then 0
    else CountSucceeded(ops, xs[..|xs| - 1]) + (if ops[xs[|xs| - 1]].success then 1 else 0)
  }

  /** The counts of execute_all's summary; at most the executed operations succeeded. */
  function SummaryOf(b: BatchState): (r: Summary)
    requires Positions(b.executedOperations, |b.operations|)
    ensures r.total == |b.operations| && r.executed == |b.executedOperations| && r.failed == |b.failedOperations|
    ensures r.succeeded <= r.executed
  {
    Summary(|b.operations|, |b.executedOperations|, CountSucceeded(b.operations, b.executedOperations), |b.failedOperations|)
  }

  lemma {:induction false} CountSucceededAll(ops: seq<Operation>, xs: seq<nat>)
    requires Positions(xs, |ops|)
    requires forall t :: 0 <= t < |xs| ==> ops[xs[t]].success
    ensures CountSucceeded(ops, xs) == |xs|
    decreases |xs|
  {
    if |xs| > 0 {
      CountSucceededAll(ops, xs[..|xs| - 1]);
    }
  }

  datatype OperationStatus = OperationStatus(name: string, executed: bool, success: bool, error: Option<string>, metadata: Metadata)

  datatype Status = Status(
    totalOperations: nat,
    executed: nat,
    pending: int,
    succeeded: nat,
    failed: nat,
    operations: seq<OperationStatus>)

  /** get_status: the counts, pending as the unexecuted rest, and one status row per operation. */
  function StatusOf(b: BatchState): (r: Status)
    requires Positions(b.executedOperations, |b.operations|)
    ensures r.executed + r.pending == r.totalOperations == |b.operations|
    ensures r.succeeded <= r.executed && r.failed == |b.failedOperations|
    ensures |r.operations| == |b.operations|
    ensures forall j :: 0 <= j < |r.operations| ==>
      var op := b.operations[j];
      r.operations[j] == OperationStatus(op.name, op.executed, op.success, op.error, op.metadata)
  {
    Status(
      |b.operations|,
      |b.executedOperations|,
      |b.operations| - |b.executedOperations|,
      CountSucceeded(b.operations, b.executedOperations),
      |b.failedOperations|,
      seq(|b.operations|, j requires 0 <= j < |b.operations| =>
        var op := b.operations[j];
        OperationStatus(op.name, op.executed, op.success, op.error, op.metadata)))
  }

  /** After the first run of a fresh batch, every listed success is flagged successful and
      every listed failure is flagged executed and unsuccessful. */
  lemma FirstRunOutcomes(ops: seq<Operation>, w: World, stopOnError: bool, oracle: nat -> Outcome)
    ensures var r := Run(BatchState(ops, [], [], w), 0, stopOnError, oracle);
      && Positions(r.executedOperations, |r.operations|)
      && Positions(r.failedOperations, |r.operations|)
      && (forall t :: 0 <= t < |r.executedOperations| ==> r.operations[r.executedOperations[t]].success)
      && (forall t :: 0 <= t < |r.failedOperations| ==>
            r.operations[r.failedOperations[t]].executed && !r.operations[r.failedOperations[t]].success)
  {
    var b := BatchState(ops, [], [], w);
    var r := Run(b, 0, stopOnError, oracle);
    if stopOnError {
      RunStopsOperations(b, 0, oracle);
      RunStopsLists(b, 0, oracle);
    } else {
      RunToEnd(b, 0, oracle);
      PartitionOfOutcomes(oracle, 0, |ops|);
      assert forall t :: 0 <= t < |r.executedOperations| ==> r.executedOperations[t] in Passing(oracle, 0, |ops|);
      assert forall t :: 0 <= t < |r.failedOperations| ==> r.failedOperations[t] in Failing(oracle, 0, |ops|);
    }
  }

  /** The first run of a fresh batch: its summary counts only successes as executed, so
      executed equals succeeded, and failed operations are counted as pending. Without
      stopping, successes and failures partition the batch; stopping at the first failure k
      leaves exactly k successes and one failure. */
  lemma FirstRunSummary(ops: seq<Operation>, w: World, stopOnError: bool, oracle: nat -> Outcome)
    ensures var r := Run(BatchState(ops, [], [], w), 0, stopOnError, oracle);
      var k := FirstFailure(oracle, 0, |ops|);
      && Positions(r.executedOperations, |r.operations|)
      && var s := SummaryOf(r);
      && var st := StatusOf(r);
      && s.total == |ops|
      && s.executed == s.succeeded
      && st.pending == st.totalOperations - st.succeeded
      && (!stopOnError ==> s.executed + s.failed == s.total && st.pending == s.failed)
      && (stopOnError ==> s.executed == k && s.failed == (if k < |ops| then 1 else 0))
  {
    var b := BatchState(ops, [], [], w);
    var r := Run(b, 0, stopOnError, oracle);
    FirstRunOutcomes(ops, w, stopOnError, oracle);
    if stopOnError {
      RunStopsOperations(b, 0, oracle);
      RunStopsLists(b, 0, oracle);
    } else {
      RunToEnd(b, 0, oracle);
      PartitionOfOutcomes(oracle, 0, |ops|);
    }
    CountSucceededAll(r.operations, r.executedOperations);
  }

  // ---------------------------------------------------------------------------
  // Rollback

  datatype RollbackSummary = RollbackSummary(rolledBack: nat, totalExecuted: nat, errors: seq<string>)

  datatype SweepState = SweepState(rolledBack: nat, errors: seq<string>, world: World)

  function RollbackError(name: string, message: string): string {
    "Failed to rollback " + name + ": " + message
  }

  /** Visiting position j-1 of executed_operations: skip it without a rollback, otherwise
      record the invocation, run the rollback and count it or record its error. */
  function Visit(ops: seq<Operation>, ex: seq<nat>, j: nat, oracle: nat -> Outcome, acc: SweepState): (r: SweepState)
    requires 0 < j <= |ex| && Positions(ex, |ops|)
    ensures ops[ex[j - 1]].rollback.None? ==> r == acc
    ensures ops[ex[j - 1]].rollback.Some? ==>
      && r.world.calls == acc.world.calls + [RolledBack(ex[j - 1])]
      && r.rolledBack + |r.errors| == acc.rolledBack + |acc.errors| + 1
    ensures ops[ex[j - 1]].rollback.Some? ==>
      var e := Undo(ops[ex[j - 1]].rollback.value, oracle(j - 1),
                    acc.world.(calls := acc.world.calls + [RolledBack(ex[j - 1])]));
      && r.world == e.world
      && (e.outcome.Returned? ==> r.rolledBack == acc.rolledBack + 1 && r.errors == acc.errors)
      && (e.outcome.Raised? ==>
            r.rolledBack == acc.rolledBack && r.errors == acc.errors + [RollbackError(ops[ex[j - 1]].name, e.outcome.message)])
    ensures r.rolledBack >= acc.rolledBack && Extends(r.errors, acc.errors)
    ensures forall t :: |acc.errors| <= t < |r.errors| ==> Text.IsPrefix("Failed to rollback ", r.errors[t])
    ensures r.world.createdRepos == acc.world.createdRepos && r.world.createdLocalDirs == acc.world.createdLocalDirs
    ensures r.world.fs <= acc.world.fs
  {
    var op := ops[ex[j - 1]];
    match op.rollback
    case None => acc
    case Some(a) =>
      var w := acc.world.(calls := acc.world.calls + [RolledBack(ex[j - 1])]);
      var e := Undo(a, oracle(j - 1), w);
      if e.outcome.Returned? then SweepState(acc.rolledBack + 1, acc.errors, e.world)
      else
        var msg := RollbackError(op.name, e.outcome.message);
        assert msg == "Failed to rollback " + (op.name + ": " + e.outcome.message);
        SweepState(acc.rolledBack, acc.errors + [msg], e.world)
  }

  /** rollback_all over executed_operations[..j], visiting position j-1 first. The oracle is
      indexed by the position in executed_operations. */
  function Sweep(ops: seq<Operation>, ex: seq<nat>, j: nat, oracle: nat -> Outcome, acc: SweepState): SweepState
    requires j <= |ex| && Positions(ex, |ops|)
    decreases j
  {
    if j == 0 then acc else Sweep(ops, ex, j - 1, oracle, Visit(ops, ex, j, oracle, acc))
  }

  function Reverse<T>(s: seq<T>): (r: seq<T>)
    ensures |r| == |s|
    ensures forall t :: 0 <= t < |s| ==> r[t] == s[|s| - 1 - t]
  {
    if s == [] then [] else Reverse(s[1..]) + [s[0]]
  }

  /** The listed positions whose operation has a rollback, in list order. */
  function WithRollback(ops: seq<Operation>, xs: seq<nat>): seq<nat>
    requires Positions(xs, |ops|)
    decreases |xs|
  {
    if xs == [] then [] else (if ops[xs[0]].rollback.Some? then [xs[0]] else []) + WithRollback(ops, xs[1..])
  }

  function RollbackCalls(xs: seq<nat>): (r: seq<Call>)
    ensures |r| == |xs| && forall t :: 0 <= t < |xs| ==> r[t] == RolledBack(xs[t])
  {
    seq(|xs|, t requires 0 <= t < |xs| => RolledBack(xs[t]))
  }

  lemma {:induction false} WithRollbackSnoc(ops: seq<Operation>, xs: seq<nat>, x: nat)
    requires Positions(xs, |ops|) && x < |ops|
    ensures Positions(xs + [x], |ops|)
    ensures WithRollback(ops, xs + [x]) == WithRollback(ops, xs) + (if ops[x].rollback.Some? then [x] else [])
    decreases |xs|
  {
    if xs != [] {
      assert (xs + [x])[1..] == xs[1..] + [x];
      WithRollbackSnoc(ops, xs[1..], x);
    }
  }

  lemma PrefixPositions(ex: seq<nat>, j: nat, n: nat)
    requires j <= |ex| && Positions(ex, n)
    ensures Positions(ex[..j], n)
  {
    assert forall t :: 0 <= t < j ==> ex[..j][t] == ex[t];
  }

  /** The rollback sweep invokes, in exact reverse order of execution, the rollbacks of the
      successful operations that have one, and skips the others; failures do not stop it. */
  lemma {:induction false} SweepOrder(ops: seq<Operation>, ex: seq<nat>, j: nat, oracle: nat -> Outcome, acc: SweepState)
    requires j <= |ex| && Positions(ex, |ops|)
    ensures Positions(ex[..j], |ops|)
    ensures Sweep(ops, ex, j, oracle, acc).world.calls
         == acc.world.calls + RollbackCalls(Reverse(WithRollback(ops, ex[..j])))
    decreases j
  {
    PrefixPositions(ex, j, |ops|);
    if j > 0 {
      var x := ex[j - 1];
      PrefixPositions(ex, j - 1, |ops|);
      assert ex[..j] == ex[..j - 1] + [x];
      WithRollbackSnoc(ops, ex[..j - 1], x);
      var rest := WithRollback(ops, ex[..j - 1]);
      var acc' := Visit(ops, ex, j, oracle, acc);
      SweepOrder(ops, ex, j - 1, oracle, acc');
      if ops[x].rollback.None? {
        assert rest + [] == rest;
      } else {
        assert Reverse(rest + [x]) == [x] + Reverse(rest);
        assert RollbackCalls([x] + Reverse(rest)) == [RolledBack(x)] + RollbackCalls(Reverse(rest));
      }
    }
  }

  /** Every rollback that is invoked is counted either as rolled back or as one error, and each
      error names its operation; the sweep never deletes a remote repository, never changes the
      creator's records and never adds a path. */
  lemma {:induction false} SweepAccounting(ops: seq<Operation>, ex: seq<nat>, j: nat, oracle: nat -> Outcome, acc: SweepState)
    requires j <= |ex| && Positions(ex, |ops|)
    ensures Positions(ex[..j], |ops|)
    ensures var r := Sweep(ops, ex, j, oracle, acc);
      && r.rolledBack + |r.errors| == acc.rolledBack + |acc.errors| + |WithRollback(ops, ex[..j])|
      && r.rolledBack >= acc.rolledBack
      && Extends(r.errors, acc.errors)
      && (forall t :: |acc.errors| <= t < |r.errors| ==> Text.IsPrefix("Failed to rollback ", r.errors[t]))
      && r.world.createdRepos == acc.world.createdRepos
      && r.world.createdLocalDirs == acc.world.createdLocalDirs
      && r.world.fs <= acc.world.fs
    decreases j
  {
    PrefixPositions(ex, j, |ops|);
    if j > 0 {
      var x := ex[j - 1];
      PrefixPositions(ex, j - 1, |ops|);
      assert ex[..j] == ex[..j - 1] + [x];
      WithRollbackSnoc(ops, ex[..j - 1], x);
      var acc' := Visit(ops, ex, j, oracle, acc);
      SweepAccounting(ops, ex, j - 1, oracle, acc');
      var r := Sweep(ops, ex, j - 1, oracle, acc');
      assert r.errors[..|acc.errors|] == r.errors[..|acc'.errors|][..|acc.errors|];
    }
  }

  /** The visited rollbacks, positions 0..j-1 of executed_operations, answer with the oracle's
      outcome itself: plain callables, as the manager runs them. */
  predicate OracleRollbacks(ops: seq<Operation>, ex: seq<nat>, j: nat)
    requires j <= |ex| && Positions(ex, |ops|)
  {
    forall t :: 0 <= t < j ==> ops[ex[t]].rollback.None? || ops[ex[t]].rollback.value.UndoCallable?
  }

  /** Number of positions t < j whose operation has a rollback that returns. */
  function Returning(ops: seq<Operation>, ex: seq<nat>, j: nat, oracle: nat -> Outcome): nat
    requires j <= |ex| && Positions(ex, |ops|)
    decreases j
  {
    if j == 0 then 0
    else Returning(ops, ex, j - 1, oracle) + (if ops[ex[j - 1]].rollback.Some? && oracle(j - 1).Returned? then 1 else 0)
  }

  /** The rollback error messages of the positions t < j whose rollback raises, for t from
      j-1 down to 0. */
  function RaisedErrors(ops: seq<Operation>, ex: seq<nat>, j: nat, oracle: nat -> Outcome): seq<string>
    requires j <= |ex| && Positions(ex, |ops|)
    decreases j
  {
    if j == 0 then [] else RaisedError(ops, ex, j, oracle) + RaisedErrors(ops, ex, j - 1, oracle)
  }

  /** The rollback error of position j-1, if its rollback raises. */
  function RaisedError(ops: seq<Operation>, ex: seq<nat>, j: nat, oracle: nat -> Outcome): seq<string>
    requires 0 < j <= |ex| && Positions(ex, |ops|)
  {
    if ops[ex[j - 1]].rollback.Some? && oracle(j - 1).Raised?
    then [RollbackError(ops[ex[j - 1]].name, oracle(j - 1).message)] else []
  }

  lemma AppendAssoc<T>(a: seq<T>, b: seq<T>, c: seq<T>)
    ensures a + b + c == a + (b + c)
  {
  }

  /** One visit of a plain rollback callable: counted when it returns, one error when it raises. */
  lemma VisitCallable(ops: seq<Operation>, ex: seq<nat>, j: nat, oracle: nat -> Outcome, acc: SweepState)
    requires 0 < j <= |ex| && Positions(ex, |ops|)
    requires ops[ex[j - 1]].rollback.None? || ops[ex[j - 1]].rollback.value.UndoCallable?
    ensures var r := Visit(ops, ex, j, oracle, acc);
      && r.rolledBack == acc.rolledBack + (if ops[ex[j - 1]].rollback.Some? && oracle(j - 1).Returned? then 1 else 0)
      && r.errors == acc.errors + RaisedError(ops, ex, j, oracle)
  {
  }

  /** For plain rollback callables, rolled_back counts exactly the rollbacks that returned. */
  lemma {:induction false} SweepCallableRolledBack(ops: seq<Operation>, ex: seq<nat>, j: nat, oracle: nat -> Outcome,
                                                   acc: SweepState)
    requires j <= |ex| && Positions(ex, |ops|) && OracleRollbacks(ops, ex, j)
    ensures Sweep(ops, ex, j, oracle, acc).rolledBack == acc.rolledBack + Returning(ops, ex, j, oracle)
    decreases j
  {
    if j > 0 {
      VisitCallable(ops, ex, j, oracle, acc);
      SweepCallableRolledBack(ops, ex, j - 1, oracle, Visit(ops, ex, j, oracle, acc));
    }
  }

  /** For plain rollback callables, errors holds "Failed to rollback <name>: <msg>" for exactly
      the rollbacks that raised, latest execution first. */
  lemma {:induction false} SweepCallableErrors(ops: seq<Operation>, ex: seq<nat>, j: nat, oracle: nat -> Outcome,
                                               acc: SweepState)
    requires j <= |ex| && Positions(ex, |ops|) && OracleRollbacks(ops, ex, j)
    ensures Sweep(ops, ex, j, oracle, acc).errors == acc.errors + RaisedErrors(ops, ex, j, oracle)
    decreases j
  {
    if j > 0 {
      var acc' := Visit(ops, ex, j, oracle, acc);
      VisitCallable(ops, ex, j, oracle, acc);
      SweepCallableErrors(ops, ex, j - 1, oracle, acc');
      assert Sweep(ops, ex, j, oracle, acc) == Sweep(ops, ex, j - 1, oracle, acc');
      assert RaisedErrors(ops, ex, j, oracle) == RaisedError(ops, ex, j, oracle) + RaisedErrors(ops, ex, j - 1, oracle);
      AppendAssoc(acc.errors, RaisedError(ops, ex, j, oracle), RaisedErrors(ops, ex, j - 1, oracle));
    }
  }

  /** For plain rollback callables the sweep's results in closed form: rolled_back counts
      exactly the rollbacks that returned, and errors holds "Failed to rollback <name>: <msg>"
      for exactly the rollbacks that raised, latest execution first; a raising rollback
      neither stops the sweep nor is counted as rolled back. */
  lemma SweepCallableAccounting(ops: seq<Operation>, ex: seq<nat>, j: nat, oracle: nat -> Outcome, acc: SweepState)
    requires j <= |ex| && Positions(ex, |ops|) && OracleRollbacks(ops, ex, j)
    ensures var r := Sweep(ops, ex, j, oracle, acc);
      && r.rolledBack == acc.rolledBack + Returning(ops, ex, j, oracle)
      && r.errors == acc.errors + RaisedErrors(ops, ex, j, oracle)
  {
    SweepCallableRolledBack(ops, ex, j, oracle, acc);
    SweepCallableErrors(ops, ex, j, oracle, acc);
  }

  // ---------------------------------------------------------------------------
  // The manager

  class BatchOperationManager {
    var operations: seq<Operation>
    var executedOperations: seq<nat>
    var failedOperations: seq<nat>

    ghost predicate Valid()
      reads this
    {
      Positions(executedOperations, |operations|) && Positions(failedOperations, |operations|)
    }

    function State(w: World): BatchState
      reads this
    {
      BatchState(operations, executedOperations, failedOperations, w)
    }

    constructor ()
      ensures Valid()
      ensures operations == [] && executedOperations == [] && failedOperations == []
    {
      operations, executedOperations, failedOperations := [], [], [];
    }

    /** Appends one unexecuted operation; earlier operations and both outcome lists are unchanged. */
    method AddOperation(name: string, execute: ExecuteAction, rollback: Option<RollbackAction>, metadata: Metadata)
      requires Valid()
      modifies this
      ensures Valid()
      ensures operations == old(operations) + [Operation(name, execute, rollback, metadata, false, false, None)]
      ensures executedOperations == old(executedOperations) && failedOperations == old(failedOperations)
    {
      operations := operations + [NewOperation(name, execute, rollback, metadata)];
    }

    /** Runs the operations in list order; outcome fields and the two lists change as Run says. */
    method ExecuteAll(stopOnError: bool, oracle: nat -> Outcome, w: World) returns (summary: Summary, w': World)
      requires Valid()
      modifies this
      ensures Valid()
      ensures var r := Run(BatchState(old(operations), old(executedOperations), old(failedOperations), w), 0, stopOnError, oracle);
        && operations == r.operations
        && executedOperations == r.executedOperations
        && failedOperations == r.failedOperations
        && w' == r.world
      ensures summary == SummaryOf(State(w'))
    {
      ghost var final := Run(State(w), 0, stopOnError, oracle);
      ghost var n := |operations|;
      var world := w;
      var i := 0;
      while i < |operations|
        invariant 0 <= i <= |operations| == n
        invariant Valid()
        invariant Run(State(world), i, stopOnError, oracle) == final
      {
        world := world.(calls := world.calls + [Executed(i)]);
        var e := Perform(operations[i].execute, oracle(i), world);
        world := e.world;
        operations := operations[i := Attempted(operations[i], e.outcome)];
        if e.outcome.Returned? {
          executedOperations := executedOperations + [i];
        } else {
          failedOperations := failedOperations + [i];
          if stopOnError {
            assert State(world) == final;
            break;
          }
        }
        i := i + 1;
      }
      w' := world;
      summary := SummaryOf(State(w'));
    }

    /** Sweeps executed_operations from last to first; the manager itself is unchanged. */
    method RollbackAll(oracle: nat -> Outcome, w: World) returns (summary: RollbackSummary, w': World)
      requires Valid()
      ensures var r := Sweep(operations, executedOperations, |executedOperations|, oracle, SweepState(0, [], w));
        summary == RollbackSummary(r.rolledBack, |executedOperations|, r.errors) && w' == r.world
    {
      ghost var final := Sweep(operations, executedOperations, |executedOperations|, oracle, SweepState(0, [], w));
      var rollbackCount := 0;
      var rollbackErrors: seq<string> := [];
      var world := w;
      var j := |executedOperations|;
      while j > 0
        invariant 0 <= j <= |executedOperations|
        invariant Sweep(operations, executedOperations, j, oracle, SweepState(rollbackCount, rollbackErrors, world)) == final
      {
        var op := operations[executedOperations[j - 1]];
        if op.rollback.Some? {
          world := world.(calls := world.calls + [RolledBack(executedOperations[j - 1])]);
          var e := Undo(op.rollback.value, oracle(j - 1), world);
          world := e.world;
          if e.outcome.Returned? {
            rollbackCount := rollbackCount + 1;
          } else {
            rollbackErrors := rollbackErrors + [RollbackError(op.name, e.outcome.message)];
          }
        }
        j := j - 1;
      }
      summary := RollbackSummary(rollbackCount, |executedOperations|, rollbackErrors);
      w' := world;
    }

    function GetStatus(): (r: Status)
      requires Valid()
      reads this
      ensures r.totalOperations == |operations| && r.executed == |executedOperations|
      ensures r.pending == |operations| - |executedOperations| && r.succeeded <= r.executed
      ensures r.failed == |failedOperations| && |r.operations| == |operations|
    {
      StatusOf(State(World({}, [], [], [])))
    }
  }

  // ---------------------------------------------------------------------------
  // Repository creation in batch

  function CreationMetadata(owner: string, name: string, localPath: Option<Path>): Metadata {
    map["owner" := Text(owner), "repo_name" := Text(name),
        "local_path" := if localPath.Some? then Text(localPath.value) else Null]
  }

  /** The operation add_repository_creation adds. */
  function CreationOperation(name: string, owner: string, description: string, isPrivate: bool, localPath: Option<Path>): (op: Operation)
    ensures op.name == "Create repository " + owner + "/" + name
    ensures !op.executed && !op.success && op.error == None
    ensures op.execute.CreateRepository? && op.execute.owner == owner && op.execute.name == name
    ensures op.rollback == Some(RemoveLocalDirectory(owner, name, localPath))
    ensures "local_path" in op.metadata && op.metadata["local_path"] == (if localPath.Some? then Text(localPath.value) else Null)
  {
    NewOperation("Create repository " + owner + "/" + name,
                 CreateRepository(owner, name, description, isPrivate, localPath),
                 Some(RemoveLocalDirectory(owner, name, localPath)),
                 CreationMetadata(owner, name, localPath))
  }

  class RepositoryBatchCreator {
    const batchManager: BatchOperationManager
    var createdRepos: seq<RepoRef>
    var createdLocalDirs: seq<Path>

    ghost predicate Valid()
      reads this, batchManager
    {
      batchManager.Valid()
    }

    constructor ()
      ensures Valid() && fresh(batchManager)
      ensures batchManager.operations == [] && batchManager.executedOperations == [] && batchManager.failedOperations == []
      ensures createdRepos == [] && createdLocalDirs == []
    {
      batchManager := new BatchOperationManager();
      createdRepos, createdLocalDirs := [], [];
    }

    method AddRepositoryCreation(name: string, owner: string, description: string, isPrivate: bool, localPath: Option<Path>)
      requires Valid()
      modifies batchManager
      ensures Valid()
      ensures batchManager.operations == old(batchManager.operations) + [CreationOperation(name, owner, description, isPrivate, localPath)]
      ensures batchManager.executedOperations == old(batchManager.executedOperations)
      ensures batchManager.failedOperations == old(batchManager.failedOperations)
    {
      var op := CreationOperation(name, owner, description, isPrivate, localPath);
      batchManager.AddOperation(op.name, op.execute, op.rollback, op.metadata);
    }

    /** Runs the batch; the creator's records receive what the execute callables appended. */
    method Execute(stopOnError: bool, oracle: nat -> Outcome, fs: set<Path>, calls: seq<Call>)
      returns (summary: Summary, fs': set<Path>, calls': seq<Call>)
      requires Valid()
      modifies this, batchManager
      ensures Valid()
      ensures var r := Run(BatchState(old(batchManager.operations), old(batchManager.executedOperations),
                                      old(batchManager.failedOperations), World(fs, old(createdRepos), old(createdLocalDirs), calls)),
                           0, stopOnError, oracle);
        && batchManager.operations == r.operations
        && batchManager.executedOperations == r.executedOperations
        && batchManager.failedOperations == r.failedOperations
        && createdRepos == r.world.createdRepos && createdLocalDirs == r.world.createdLocalDirs
        && fs' == r.world.fs && calls' == r.world.calls
        && summary == SummaryOf(r)
    {
      var w;
      summary, w := batchManager.ExecuteAll(stopOnError, oracle, World(fs, createdRepos, createdLocalDirs, calls));
      createdRepos, createdLocalDirs := w.createdRepos, w.createdLocalDirs;
      fs', calls' := w.fs, w.calls;
    }

    /** Rolls back the batch; only local directories can go, the records stay as they are. */
    method Rollback(oracle: nat -> Outcome, fs: set<Path>, calls: seq<Call>)
      returns (summary: RollbackSummary, fs': set<Path>, calls': seq<Call>)
      requires Valid()
      ensures var r := Sweep(batchManager.operations, batchManager.executedOperations, |batchManager.executedOperations|,
                             oracle, SweepState(0, [], World(fs, createdRepos, createdLocalDirs, calls)));
        && summary == RollbackSummary(r.rolledBack, |batchManager.executedOperations|, r.errors)
        && fs' == r.world.fs && calls' == r.world.calls
    {
      var w;
      summary, w := batchManager.RollbackAll(oracle, World(fs, createdRepos, createdLocalDirs, calls));
      fs', calls' := w.fs, w.calls;
    }

    function GetStatus(): (r: Status)
      requires Valid()
      reads this, batchManager
      ensures r == batchManager.GetStatus()
    {
      batchManager.GetStatus()
    }
  }

  // ---------------------------------------------------------------------------
  // Worked examples

  function ThreeOperations(): seq<Operation> {
    [NewOperation("op1", Callable(1), Some(UndoCallable(1)), map[]),
     NewOperation("op2", Callable(2), Some(UndoCallable(2)), map[]),
     NewOperation("op3", Callable(3), Some(UndoCallable(3)), map[])]
  }

  /** Three operations, the second raising, run with stop_on_error: op1 and op2 are invoked in
      that order, op3 never; the summary counts one success as executed and one failure. */
  lemma StopOnErrorExample(w: World)
    ensures var oracle := (j: nat) => if j == 1 then Raised("x") else Returned;
      var r := Run(BatchState(ThreeOperations(), [], [], w), 0, true, oracle);
      && Positions(r.executedOperations, |r.operations|)
      && SummaryOf(r) == Summary(3, 1, 1, 1)
      && r.operations[2] == ThreeOperations()[2]
      && r.operations[1].error == Some("x")
      && r.world.calls == w.calls + [Executed(0), Executed(1)]
  {
    var oracle := (j: nat) => if j == 1 then Raised("x") else Returned;
    var b := BatchState(ThreeOperations(), [], [], w);
    var r := Run(b, 0, true, oracle);
    assert FirstFailure(oracle, 0, 3) == 1 by {
      assert FirstFailure(oracle, 1, 3) == 1;
    }
    RunStopsLists(b, 0, oracle);
    assert r.executedOperations == [0] by {
      assert Range(0, 1) == [0];
    }
    assert r.failedOperations == [1];
    assert ExecutedCalls(0, 2) == [Executed(0), Executed(1)] by {
      assert ExecutedCalls(1, 2) == [Executed(1)];
    }
    RunStopsOperations(b, 0, oracle);
    FirstRunOutcomes(ThreeOperations(), w, true, oracle);
    CountSucceededAll(r.operations, r.executedOperations);
  }

  /** Three successful operations rolled back while the second rollback raises: rollbacks run
      as op3, op2, op1; op1 is still rolled back and counted; the one error names op2. */
  lemma RollbackExample(w: World)
    ensures var oracle := (p: nat) => if p == 1 then Raised("boom") else Returned;
      var r := Sweep(ThreeOperations(), [0, 1, 2], 3, oracle, SweepState(0, [], w));
      && r.world.calls == w.calls + [RolledBack(2), RolledBack(1), RolledBack(0)]
      && r.rolledBack == 2
      && r.errors == ["Failed to rollback op2: boom"]
  {
    var oracle := (p: nat) => if p == 1 then Raised("boom") else Returned;
    var ops, ex := ThreeOperations(), [0, 1, 2];
    var s3 := SweepState(0, [], w);
    var s2 := Visit(ops, ex, 3, oracle, s3);
    assert s2 == SweepState(1, [], w.(calls := w.calls + [RolledBack(2)]));
    assert RollbackError("op2", "boom") == "Failed to rollback op2: boom";
    var s1 := Visit(ops, ex, 2, oracle, s2);
    assert s1 == SweepState(1, ["Failed to rollback op2: boom"], w.(calls := w.calls + [RolledBack(2), RolledBack(1)]));
    var s0 := Visit(ops, ex, 1, oracle, s1);
    assert s0 == SweepState(2, ["Failed to rollback op2: boom"], w.(calls := w.calls + [RolledBack(2), RolledBack(1), RolledBack(0)]));
    assert Sweep(ops, ex, 3, oracle, s3) == Sweep(ops, ex, 0, oracle, s0);
  }
}
