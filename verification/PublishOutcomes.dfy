/** What a worker decides about an instruction or a transaction is what JavaScript gets to read, and what
    the promise is settled by. */
module PublishOutcomes {
  import opened FlagWord
  import opened PublishProtocol
  import opened PublishInvariant
  import opened PublishPublication
  import opened PublishTheorems
  import opened PublishSettlement

  // --------------------------------------------- the outcome of a transaction

  /** The transaction ending at `d` has been decided, and nothing contradicts `ok`. */
  ghost predicate Decided(words: seq<Word>, n: Native, d: nat, ok: bool) {
    && d < |words| && words[d].delimiter && n.worker != Committing(d)
    && (words[d].committed ==> ok) && (words[d].hadError ==> !ok)
    && (d in n.lingering ==> n.lingering[d] == ok)
    && (Ended(words[d]) || d in n.lingering)
    && d in n.commits
  }

  lemma CommitDecides(s: State, ok: bool)
    requires Inv(s) && InRange(s) && s.native.worker.Committing?
    ensures Decided(s.mem.words, DoCommit(s.native, ok), s.native.worker.delim, ok)
  {
    hide Shape, ProducerInv, PublishedWords, Consumer, Delimiters, Statuses, WorkerLocals, History, Queue, Walked,
         Settled;
    CommitsAtTheCursor(s);
  }

  lemma CommitsAtTheCursor(s: State)
    requires Inv(s)
    ensures s.native.worker.Committing? ==> s.native.worker.delim == s.native.cursor
  {
    hide Shape, ProducerInv, PublishedWords, Delimiters, Statuses, HandOff, WorkerLocals, CommitMarks, History, Queue,
         Walked, Settled;
  }

  lemma JavaScriptKeepsDecided(s: State, step: Step, d: nat, ok: bool)
    requires InRange(s) && Enabled(s, step) && Decided(s.mem.words, s.native, d, ok)
    requires step.Allot? || step.BeginEventTurn? || step.BeginBlock? || step.EndBlock? || step.EndEventTurn?
             || step.PublishStartEarly? || step.PublishOr? || step.PublishRead? || step.PublishStore?
             || step.StartWriting? || step.WorkerCallback? || step.ProgressCallback? || step.ReadDelimiter?
             || step.BeginResolve? || step.Walk? || step.SettleTxn?
    requires s.prod.js.StoreFlags? ==> Bare(s.mem.words[s.prod.js.at])
    ensures var t := Apply(s, step); Decided(t.mem.words, t.native, d, ok)
  {
    hide SettleRange;
  }

  lemma ArrivingKeepsDecided(s: State, step: Step, d: nat, ok: bool)
    requires InRange(s) && Enabled(s, step) && Decided(s.mem.words, s.native, d, ok)
    requires step.Acquire? || step.Load? || step.CasWaiting? || step.CasDelimiter? || step.Wake? || step.Interrupt?
    requires s.native.worker.Loaded? && s.native.worker.flags.op.NoInstruction? ==> Bare(s.native.worker.flags)
    ensures var t := Apply(s, step); Decided(t.mem.words, t.native, d, ok)
  {
  }

  lemma ExecutingKeepsDecided(s: State, step: Step, d: nat, ok: bool)
    requires InRange(s) && Enabled(s, step) && Decided(s.mem.words, s.native, d, ok)
    requires step.Structural? || step.Execute? || step.CallbacksDone? || step.StoreStatus? || step.MergeStatus?
             || step.Commit? || step.MarkCommitted?
    requires s.native.worker.Merging? ==> s.native.worker.seen == s.mem.words[s.native.worker.pos]
    ensures var t := Apply(s, step); Decided(t.mem.words, t.native, d, ok)
  {
  }

  lemma StoringFacts(s: State)
    requires Inv(s) && InRange(s)
    ensures s.prod.js.StoreFlags? ==> Bare(s.mem.words[s.prod.js.at])
  {
    hide Shape, ProducerInv, PublishedWords, Consumer, Delimiters, Statuses, HandOff, WorkerLocals, CommitMarks,
         History, Queue, Walked, Settled;
    if s.prod.js.StoreFlags? {
      PublishFacts(s.mem, s.prod, s.prom, s.native);
    }
  }

  lemma StepKeepsDecided(s: State, step: Step, d: nat, ok: bool)
    requires Inv(s) && InRange(s) && Enabled(s, step) && Decided(s.mem.words, s.native, d, ok)
    ensures var t := Apply(s, step); Decided(t.mem.words, t.native, d, ok)
  {
    hide Inv, Enabled, Apply, Decided, InRange;
    StoringFacts(s);
    WorkerFacts(s);
    match step
    case Acquire | Load | CasWaiting | CasDelimiter | Wake | Interrupt => ArrivingKeepsDecided(s, step, d, ok);
    case Structural | Execute(_, _) | CallbacksDone | StoreStatus | MergeStatus | Commit(_) | MarkCommitted(_) =>
      ExecutingKeepsDecided(s, step, d, ok);
    case _ => JavaScriptKeepsDecided(s, step, d, ok);
  }

  /** Once the transaction ending at `d` has been committed, its word can only ever say so, and once the
      commit has failed only that; the word says it, or the worker is about to write it. */
  lemma {:induction false} CommitIsReported(run: seq<State>, i: nat, ok: bool, k: nat)
    requires ValidRun(run) && i < k < |run| && run[i].native.worker.Committing?
    requires InRange(run[i]) && run[i + 1] == Apply(run[i], Commit(ok))
    ensures Decided(run[k].mem.words, run[k].native, run[i].native.worker.delim, ok)
    decreases k
  {
    hide Inv, Apply, Enabled, InRange, Transition, Decided;
    if k == i + 1 {
      RunKeepsInv(run, i);
      CommitDecides(run[i], ok);
      AppliedCommit(run[i], ok);
    } else {
      CommitIsReported(run, i, ok, k - 1);
      var step := StepOf(run, k - 1);
      StepKeepsDecided(run[k - 1], step, run[i].native.worker.delim, ok);
    }
  }

  lemma AppliedCommit(s: State, ok: bool)
    requires InRange(s) && s.native.worker.Committing?
    ensures Apply(s, Commit(ok)) == s.(native := DoCommit(s.native, ok))
  {
  }

  // ----------------------------------------------- the outcome of an operation

  /** Instruction `p` has been executed, and nothing contradicts that its condition `failed`. */
  ghost predicate Performed(words: seq<Word>, n: Native, p: nat, failed: bool) {
    && p < |words| && p <= n.cursor
    && (words[p].failedCondition ==> failed)
    && (p < n.cursor ==> words[p].finished && words[p].failedCondition == failed)
    && (p == n.cursor ==>
          && Executed(n.worker) && n.worker.pos == p
          && (if n.worker.AwaitCallbacks? then !failed && words[p].finished else n.worker.failed == failed))
  }

  lemma ExecutePerforms(s: State, failed: bool, strict: bool)
    requires Inv(s) && InRange(s) && Enabled(s, Execute(failed, strict))
    ensures var t := Apply(s, Execute(failed, strict));
            Performed(t.mem.words, t.native, s.native.worker.pos, failed)
  {
    hide Inv;
    LoadedFacts(s);
  }

  lemma LoadedFacts(s: State)
    requires Inv(s) && s.native.worker.Loaded?
    ensures s.native.worker.pos == s.native.cursor < |s.mem.words|
    ensures !s.mem.words[s.native.cursor].failedCondition
  {
    hide Shape, ProducerInv, PublishedWords, Delimiters, HandOff, WorkerLocals, CommitMarks, History, Queue, Walked,
         Settled;
  }

  lemma JavaScriptKeepsPerformed(s: State, step: Step, p: nat, failed: bool)
    requires InRange(s) && Enabled(s, step) && Performed(s.mem.words, s.native, p, failed)
    requires step.Allot? || step.BeginEventTurn? || step.BeginBlock? || step.EndBlock? || step.EndEventTurn?
             || step.PublishStartEarly? || step.PublishOr? || step.PublishRead? || step.PublishStore?
             || step.StartWriting? || step.WorkerCallback? || step.ProgressCallback? || step.ReadDelimiter?
             || step.BeginResolve? || step.Walk? || step.SettleTxn?
    requires Publishing(s.prod.js) ==> s.prod.js.at != p
    ensures var t := Apply(s, step); Performed(t.mem.words, t.native, p, failed)
  {
    hide SettleRange;
  }

  lemma ArrivingKeepsPerformed(s: State, step: Step, p: nat, failed: bool)
    requires InRange(s) && Enabled(s, step) && Performed(s.mem.words, s.native, p, failed)
    requires step.Acquire? || step.Load? || step.CasWaiting? || step.CasDelimiter? || step.Wake? || step.Interrupt?
    requires Running(s.native.worker) ==> s.native.worker.pos == s.native.cursor
    requires s.native.worker.NoWorker? && s.native.spawned != [] ==> s.native.spawned[0] == s.native.cursor
    ensures var t := Apply(s, step); Performed(t.mem.words, t.native, p, failed)
  {
  }

  lemma ExecutingKeepsPerformed(s: State, step: Step, p: nat, failed: bool)
    requires InRange(s) && Enabled(s, step) && Performed(s.mem.words, s.native, p, failed)
    requires step.Structural? || step.Execute? || step.CallbacksDone? || step.StoreStatus? || step.MergeStatus?
             || step.Commit? || step.MarkCommitted?
    requires s.native.worker.Merging? ==> s.native.worker.seen == s.mem.words[s.native.worker.pos]
    requires Running(s.native.worker) ==> s.native.worker.pos == s.native.cursor
    ensures var t := Apply(s, step); Performed(t.mem.words, t.native, p, failed)
  {
  }

  lemma PublishedFacts(s: State, p: nat)
    requires Inv(s) && InRange(s) && (p < s.native.cursor || (p == s.native.cursor && Executed(s.native.worker)))
    ensures Publishing(s.prod.js) ==> s.prod.js.at != p
    ensures Running(s.native.worker) ==> s.native.worker.pos == s.native.cursor
    ensures s.native.worker.NoWorker? && s.native.spawned != [] ==> s.native.spawned[0] == s.native.cursor
  {
    hide Shape, Delimiters, WorkerLocals, CommitMarks, History, Queue, Walked, Settled;
    if Publishing(s.prod.js) {
      UnpublishedAt(s);
    }
  }

  lemma UnpublishedAt(s: State)
    requires Inv(s) && Publishing(s.prod.js)
    ensures s.prod.js.at < |s.mem.words| && s.mem.words[s.prod.js.at].op.NoInstruction?
  {
    hide Shape, ProducerInv, PublishedWords, Consumer, Delimiters, Statuses, HandOff, WorkerLocals, CommitMarks,
         History, Queue, Walked, Settled;
    PublishFacts(s.mem, s.prod, s.prom, s.native);
  }

  lemma StepKeepsPerformed(s: State, step: Step, p: nat, failed: bool)
    requires Inv(s) && InRange(s) && Enabled(s, step) && Performed(s.mem.words, s.native, p, failed)
    ensures var t := Apply(s, step); Performed(t.mem.words, t.native, p, failed)
  {
    hide Inv, Enabled, Apply, InRange;
    PublishedFacts(s, p);
    WorkerFacts(s);
    match step
    case Acquire | Load | CasWaiting | CasDelimiter | Wake | Interrupt => ArrivingKeepsPerformed(s, step, p, failed);
    case Structural | Execute(_, _) | CallbacksDone | StoreStatus | MergeStatus | Commit(_) | MarkCommitted(_) =>
      ExecutingKeepsPerformed(s, step, p, failed);
    case _ => JavaScriptKeepsPerformed(s, step, p, failed);
  }

  /** Once an instruction has been executed, its word can only ever say how that turned out, and does so as
      soon as the worker has moved past it. */
  lemma {:induction false} ExecutionIsReported(run: seq<State>, i: nat, failed: bool, strict: bool, k: nat)
    requires ValidRun(run) && i < k < |run| && run[i].native.worker.Loaded?
    requires InRange(run[i]) && Enabled(run[i], Execute(failed, strict))
    requires run[i + 1] == Apply(run[i], Execute(failed, strict))
    ensures Performed(run[k].mem.words, run[k].native, run[i].native.worker.pos, failed)
    decreases k
  {
    hide Inv, Apply, Enabled, InRange, Transition, Performed;
    if k == i + 1 {
      RunKeepsInv(run, i);
      ExecutePerforms(run[i], failed, strict);
    } else {
      ExecutionIsReported(run, i, failed, strict, k - 1);
      var step := StepOf(run, k - 1);
      StepKeepsPerformed(run[k - 1], step, run[i].native.worker.pos, failed);
    }
  }

  /** From decision to promise: the promise of an operation that was executed in step `i` and settled by a
      transaction committed, or not, in step `j` resolves with true exactly if the operation did not fail,
      and is rejected exactly if the commit failed. */
  lemma SettledAsDecided(run: seq<State>, i: nat, failed: bool, strict: bool, j: nat, ok: bool, k: nat, e: Settlement)
    requires ValidRun(run) && i < k < |run| && run[i].native.worker.Loaded?
    requires InRange(run[i]) && Enabled(run[i], Execute(failed, strict))
    requires run[i + 1] == Apply(run[i], Execute(failed, strict))
    requires j < k && run[j].native.worker.Committing? && InRange(run[j]) && run[j + 1] == Apply(run[j], Commit(ok))
    requires e in run[k].prom.settled
    requires e.index == run[i].native.worker.pos && e.delim == run[j].native.worker.delim
    ensures e.outcome == if ok then Resolved(!failed) else Rejected
  {
    hide Inv, Apply, Enabled, InRange, Transition;
    var a :| 0 <= a < |run[k].prom.settled| && run[k].prom.settled[a] == e;
    SettledByOwnTransaction(run, k, a);
    ExecutionIsReported(run, i, failed, strict, k);
    CommitIsReported(run, j, ok, k);
    PerformedBeforeDelimiter(run, k, e.index, e.delim);
  }

  lemma PerformedBeforeDelimiter(run: seq<State>, k: nat, p: nat, d: nat)
    requires ValidRun(run) && k < |run| && p < d < |run[k].mem.words| && run[k].mem.words[d].delimiter
    ensures p < run[k].native.cursor
  {
    RunKeepsInv(run, k);
    hide Shape, ProducerInv, PublishedWords, Consumer, Statuses, HandOff, WorkerLocals, CommitMarks, History, Queue,
         Walked, Settled;
  }

  // ------------------------------------------------------- callbacks come first

  /** JavaScript has run its callbacks in some step between `i` and `k`. */
  ghost predicate ProgressBetween(run: seq<State>, i: nat, k: nat) {
    exists m :: i < m < k < |run| && ProgressAt(run[m], run[m + 1])
  }

  ghost predicate ProgressAt(s: State, t: State) {
    InRange(s) && Enabled(s, ProgressCallback) && t == Apply(s, ProgressCallback)
  }

  /** The worker has a callback outstanding; in strict order it has not even moved past it. */
  ghost predicate Outstanding(n: Native, p: nat, strict: bool) {
    && !n.finishedProgress && Running(n.worker)
    && (strict ==> n.worker.AwaitCallbacks? && n.worker.pos == p == n.cursor)
  }

  lemma StepKeepsOutstanding(s: State, step: Step, p: nat, strict: bool)
    requires InRange(s) && Enabled(s, step) && Outstanding(s.native, p, strict)
    ensures ProgressAt(s, Apply(s, step)) || Outstanding(Apply(s, step).native, p, strict)
  {
    hide QueueCommit, SettleRange, Allocate;
  }

  /** After a callback has been executed its worker ends no transaction, and in strict order does not move
      on, before JavaScript has run its callbacks. */
  lemma {:induction false} CallbacksComeFirst(run: seq<State>, i: nat, strict: bool, k: nat)
    requires ValidRun(run) && i < k < |run| && run[i].native.worker.Loaded?
    requires InRange(run[i]) && Enabled(run[i], Execute(false, strict))
    requires run[i].native.worker.flags.op == Published(Callback)
    requires run[i + 1] == Apply(run[i], Execute(false, strict))
    ensures ProgressBetween(run, i, k) || Outstanding(run[k].native, run[i].native.worker.pos, strict)
    decreases k
  {
    hide Inv, Apply, Enabled, InRange, Transition, ProgressAt, ProgressBetween, Outstanding, ValidRun;
    var p := run[i].native.worker.pos;
    if k == i + 1 {
      RunKeepsInv(run, i);
      LoadedFacts(run[i]);
      ExecutesCallback(run[i], strict);
    } else {
      CallbacksComeFirst(run, i, strict, k - 1);
      var step := StepOf(run, k - 1);
      LaterProgress(run, i, k);
      if !ProgressBetween(run, i, k - 1) {
        StepKeepsOutstanding(run[k - 1], step, p, strict);
      }
    }
  }

  lemma LaterProgress(run: seq<State>, i: nat, k: nat)
    requires i < k - 1 && k < |run|
    ensures ProgressBetween(run, i, k - 1) || ProgressAt(run[k - 1], run[k]) ==> ProgressBetween(run, i, k)
  {
    hide ProgressAt;
    if ProgressBetween(run, i, k - 1) {
      var m :| i < m < k - 1 && ProgressAt(run[m], run[m + 1]);
      ProgressWitness(run, i, m, k);
    } else if ProgressAt(run[k - 1], run[k]) {
      ProgressWitness(run, i, k - 1, k);
    }
  }

  lemma ProgressWitness(run: seq<State>, i: nat, m: nat, k: nat)
    requires i < m < k < |run| && ProgressAt(run[m], run[m + 1])
    ensures ProgressBetween(run, i, k)
  {
    hide ProgressAt;
  }

  lemma ExecutesCallback(s: State, strict: bool)
    requires InRange(s) && Enabled(s, Execute(false, strict)) && s.native.worker.flags.op == Published(Callback)
    requires s.native.worker.pos == s.native.cursor
    ensures Outstanding(Apply(s, Execute(false, strict)).native, s.native.cursor, strict)
  {
  }

  /** `j` is a callback the worker has executed in its present transaction. */
  ghost predicate OwedFor(words: seq<Word>, kinds: seq<Kind>, log: seq<nat>, j: nat) {
    j in log && j < |kinds| && kinds[j].Callback? && forall d :: 0 <= d < |words| && words[d].delimiter ==> d <= j
  }

  ghost predicate Owed(words: seq<Word>, kinds: seq<Kind>, n: Native) {
    !n.finishedProgress && Running(n.worker) ==> exists j :: OwedFor(words, kinds, n.log, j)
  }

  lemma JavaScriptKeepsOwed(s: State, step: Step, j: nat)
    requires InRange(s) && Enabled(s, step) && OwedFor(s.mem.words, s.mem.kinds, s.native.log, j)
    requires step.Allot? || step.BeginEventTurn? || step.BeginBlock? || step.EndBlock? || step.EndEventTurn?
             || step.PublishStartEarly? || step.PublishOr? || step.PublishRead? || step.PublishStore?
             || step.StartWriting? || step.WorkerCallback? || step.ProgressCallback? || step.ReadDelimiter?
             || step.BeginResolve? || step.Walk? || step.SettleTxn?
    ensures var t := Apply(s, step); OwedFor(t.mem.words, t.mem.kinds, t.native.log, j)
  {
    hide SettleRange;
  }

  lemma JavaScriptOwesNothing(s: State, step: Step)
    requires InRange(s) && Enabled(s, step)
    requires step.Allot? || step.BeginEventTurn? || step.BeginBlock? || step.EndBlock? || step.EndEventTurn?
             || step.PublishStartEarly? || step.PublishOr? || step.PublishRead? || step.PublishStore?
             || step.StartWriting? || step.WorkerCallback? || step.ProgressCallback? || step.ReadDelimiter?
             || step.BeginResolve? || step.Walk? || step.SettleTxn?
    ensures Apply(s, step).native.worker == s.native.worker
    ensures s.native.finishedProgress ==> Apply(s, step).native.finishedProgress
  {
    hide SettleRange, QueueCommit, Allocate;
  }

  lemma WorkerKeepsOwed(s: State, step: Step, j: nat)
    requires InRange(s) && Enabled(s, step) && OwedFor(s.mem.words, s.mem.kinds, s.native.log, j)
    requires step.Acquire? || step.Load? || step.CasWaiting? || step.CasDelimiter? || step.Wake? || step.Interrupt?
             || step.Structural? || step.Execute? || step.CallbacksDone? || step.StoreStatus? || step.MergeStatus?
             || step.Commit? || step.MarkCommitted?
    requires s.native.worker.Merging? ==> s.native.worker.seen == s.mem.words[s.native.worker.pos]
    requires forall d <- s.native.lingering :: s.mem.words[d].delimiter
    ensures var t := Apply(s, step);
            !Running(t.native.worker) || OwedFor(t.mem.words, t.mem.kinds, t.native.log, j)
  {
  }

  /** Only a callback just executed makes progress outstanding. */
  lemma WorkerOwes(s: State, step: Step)
    requires InRange(s) && Enabled(s, step)
    requires step.Acquire? || step.Load? || step.CasWaiting? || step.CasDelimiter? || step.Wake? || step.Interrupt?
             || step.Structural? || step.Execute? || step.CallbacksDone? || step.StoreStatus? || step.MergeStatus?
             || step.Commit? || step.MarkCommitted?
    requires s.native.worker.Loaded? ==>
               && s.native.worker.pos == s.native.cursor
               && (s.native.worker.flags.op.Published? ==>
                     s.native.cursor < |s.mem.kinds|
                     && s.native.worker.flags.op == Published(s.mem.kinds[s.native.cursor]))
    requires forall d :: 0 <= d < |s.mem.words| && s.mem.words[d].delimiter ==> d <= s.native.cursor
    ensures var t := Apply(s, step);
            t.native.finishedProgress || !Running(t.native.worker)
            || (!s.native.finishedProgress && Running(s.native.worker))
            || OwedFor(t.mem.words, t.mem.kinds, t.native.log, s.native.cursor)
  {
  }

  lemma OwingFacts(s: State)
    requires Inv(s)
    ensures s.native.worker.Loaded? ==>
              && s.native.worker.pos == s.native.cursor
              && (s.native.worker.flags.op.Published? ==>
                    s.native.cursor < |s.mem.kinds|
                    && s.native.worker.flags.op == Published(s.mem.kinds[s.native.cursor]))
    ensures forall d :: 0 <= d < |s.mem.words| && s.mem.words[d].delimiter ==> d <= s.native.cursor
    ensures forall d <- s.native.lingering :: d < |s.mem.words| && s.mem.words[d].delimiter
  {
    hide Shape, ProducerInv, PublishedWords, Statuses, HandOff, History, Queue, Walked, Settled;
  }

  lemma WorkerStepKeepsOwed(s: State, step: Step)
    requires Inv(s) && InRange(s) && Enabled(s, step) && Owed(s.mem.words, s.mem.kinds, s.native)
    requires step.Acquire? || step.Load? || step.CasWaiting? || step.CasDelimiter? || step.Wake? || step.Interrupt?
             || step.Structural? || step.Execute? || step.CallbacksDone? || step.StoreStatus? || step.MergeStatus?
             || step.Commit? || step.MarkCommitted?
    ensures var t := Apply(s, step); Owed(t.mem.words, t.mem.kinds, t.native)
  {
    hide Inv, Enabled, Apply, InRange, OwedFor;
    OwingFacts(s);
    WorkerFacts(s);
    WorkerOwes(s, step);
    if !s.native.finishedProgress && Running(s.native.worker) {
      var j :| OwedFor(s.mem.words, s.mem.kinds, s.native.log, j);
      WorkerKeepsOwed(s, step, j);
    }
  }

  lemma JavaScriptStepKeepsOwed(s: State, step: Step)
    requires InRange(s) && Enabled(s, step) && Owed(s.mem.words, s.mem.kinds, s.native)
    requires step.Allot? || step.BeginEventTurn? || step.BeginBlock? || step.EndBlock? || step.EndEventTurn?
             || step.PublishStartEarly? || step.PublishOr? || step.PublishRead? || step.PublishStore?
             || step.StartWriting? || step.WorkerCallback? || step.ProgressCallback? || step.ReadDelimiter?
             || step.BeginResolve? || step.Walk? || step.SettleTxn?
    ensures var t := Apply(s, step); Owed(t.mem.words, t.mem.kinds, t.native)
  {
    hide Enabled, Apply, InRange, OwedFor;
    JavaScriptOwesNothing(s, step);
    if !s.native.finishedProgress && Running(s.native.worker) {
      var j :| OwedFor(s.mem.words, s.mem.kinds, s.native.log, j);
      JavaScriptKeepsOwed(s, step, j);
    }
  }

  lemma StepKeepsOwed(s: State, step: Step)
    requires Inv(s) && InRange(s) && Enabled(s, step) && Owed(s.mem.words, s.mem.kinds, s.native)
    ensures var t := Apply(s, step); Owed(t.mem.words, t.mem.kinds, t.native)
  {
    hide Inv, Enabled, Apply, InRange, Owed;
    match step
    case Acquire | Load | CasWaiting | CasDelimiter | Wake | Interrupt | Structural | Execute(_, _) | CallbacksDone
      | StoreStatus | MergeStatus | Commit(_) | MarkCommitted(_) => WorkerStepKeepsOwed(s, step);
    case _ => JavaScriptStepKeepsOwed(s, step);
  }

  /** A worker waits for JavaScript to run callbacks only if it has executed one in its present transaction:
      without callbacks a transaction ends at the first free word. */
  lemma {:induction false} WaitsOnlyForCallbacks(run: seq<State>, i: nat)
    requires ValidRun(run) && i < |run|
    ensures var s := run[i];
            !s.native.finishedProgress && Running(s.native.worker) ==>
              exists j :: OwedFor(s.mem.words, s.mem.kinds, s.native.log, j)
  {
    hide Inv, Apply, Enabled, InRange, Transition, OwedFor;
    if i > 0 {
      WaitsOnlyForCallbacks(run, i - 1);
      var step := StepOf(run, i - 1);
      StepKeepsOwed(run[i - 1], step);
    }
  }

  // ----------------------------------------------------------- released buffers

  ghost predicate Freed(kinds: seq<Kind>, q: Promises) {
    forall u :: 0 <= u < q.unwritten && u < |kinds| && HasStatus(kinds[u]) ==> u in q.isTxn || u in q.released
  }

  lemma StepKeepsFreed(s: State, step: Step)
    requires InRange(s) && Enabled(s, step) && Freed(s.mem.kinds, s.prom)
    ensures Freed(Apply(s, step).mem.kinds, Apply(s, step).prom)
  {
    hide SettleRange;
  }

  lemma {:induction false} RunKeepsFreed(run: seq<State>, i: nat)
    requires ValidRun(run) && i < |run|
    ensures Freed(run[i].mem.kinds, run[i].prom)
  {
    hide Inv, Apply, Enabled, InRange, Transition, Freed;
    if i == 0 {
      assert Freed(run[0].mem.kinds, run[0].prom) by { NothingWalked(); }
    } else {
      RunKeepsFreed(run, i - 1);
      var step := StepOf(run, i - 1);
      StepKeepsFreed(run[i - 1], step);
    }
  }

  lemma NothingWalked()
    ensures Freed(Init().mem.kinds, Init().prom)
  {
  }

  /** Of the promises walked, exactly those that end no transaction have let go of their buffer. */
  lemma BuffersAreReleased(run: seq<State>, i: nat, u: nat)
    requires ValidRun(run) && i < |run|
    requires u < run[i].prom.unwritten && u < |run[i].mem.kinds| && HasStatus(run[i].mem.kinds[u])
    ensures u in run[i].prom.released <==> u !in run[i].prom.isTxn
  {
    RunKeepsInv(run, i);
    RunKeepsFreed(run, i);
    hide Shape, ProducerInv, PublishedWords, Consumer, Delimiters, Statuses, HandOff, WorkerLocals, CommitMarks,
         History, Queue, Settled;
  }
}
