/** What the write stream protocol guarantees over every run. */
module PublishTheorems {
  import opened Options
  import opened FlagWord
  import opened PublishProtocol
  import opened PublishInvariant
  import opened PublishAllocation
  import opened PublishPublication
  import opened PublishWorker

  ghost predicate Transition(s: State, s': State) {
    InRange(s) && exists step :: Enabled(s, step) && s' == Apply(s, step)
  }

  /** A run: any interleaving of producer, worker and promise steps from the initial state. */
  ghost predicate ValidRun(run: seq<State>) {
    && |run| > 0 && run[0] == Init()
    && (forall i :: 0 <= i < |run| - 1 ==> Transition(run[i], run[i + 1]))
  }

  ghost function Last(run: seq<State>): State
    requires |run| > 0
  {
    run[|run| - 1]
  }

  lemma Extend(run: seq<State>, step: Step) returns (run': seq<State>)
    requires ValidRun(run) && InRange(Last(run)) && Enabled(Last(run), step)
    ensures ValidRun(run') && run' == run + [Apply(Last(run), step)]
  {
    hide Enabled, Apply, InRange;
    run' := run + [Apply(Last(run), step)];
    forall i | 0 <= i < |run'| - 1
      ensures Transition(run'[i], run'[i + 1])
    {
      if i < |run| - 1 {
        assert Transition(run[i], run[i + 1]);
      } else {
        assert InRange(Last(run));
      }
    }
  }

  lemma KeepProducerStep(s: State, step: Step)
    requires Inv(s) && InRange(s) && Enabled(s, step)
    requires step.Allot? || step.BeginEventTurn? || step.BeginBlock? || step.EndBlock? || step.EndEventTurn?
             || step.PublishStartEarly? || step.PublishOr? || step.PublishRead? || step.PublishStore?
             || step.StartWriting?
    ensures Inv(Apply(s, step))
  {
    hide Inv;
    match step
    case Allot(kind, jump) => KeepAllot(s, kind, jump);
    case BeginEventTurn(jump) => KeepBeginEventTurn(s, jump);
    case BeginBlock(jump) => KeepBeginBlock(s, jump);
    case EndBlock => KeepEndBlock(s);
    case EndEventTurn => KeepEndEventTurn(s);
    case PublishStartEarly => KeepPublishStartEarly(s);
    case PublishOr => KeepPublishOr(s);
    case PublishRead => KeepPublishRead(s);
    case PublishStore => KeepPublishStore(s);
    case StartWriting => KeepStartWriting(s);
  }

  lemma KeepPromiseStep(s: State, step: Step)
    requires Inv(s) && InRange(s) && Enabled(s, step)
    requires step.WorkerCallback? || step.ProgressCallback? || step.ReadDelimiter? || step.BeginResolve?
             || step.Walk? || step.SettleTxn?
    ensures Inv(Apply(s, step))
  {
    hide Inv;
    match step
    case WorkerCallback => KeepIdle(s, CheckDelimiter, s.native.completions - 1, s.native.finishedProgress);
    case ProgressCallback => KeepIdle(s, CheckDelimiter, s.native.completions, true);
    case ReadDelimiter => KeepReadDelimiter(s);
    case BeginResolve => KeepIdle(s, WalkFinished, s.native.completions, s.native.finishedProgress);
    case Walk => KeepWalk(s);
    case SettleTxn => KeepSettleTxn(s);
  }

  lemma KeepWorkerStep(s: State, step: Step)
    requires Inv(s) && InRange(s) && Enabled(s, step)
    requires step.Acquire? || step.Load? || step.CasWaiting? || step.CasDelimiter? || step.Wake? || step.Interrupt?
             || step.Structural? || step.Execute? || step.CallbacksDone? || step.StoreStatus? || step.MergeStatus?
             || step.Commit? || step.MarkCommitted?
    ensures Inv(Apply(s, step))
  {
    hide Inv;
    match step
    case Acquire => KeepAcquire(s);
    case Load => KeepLoad(s);
    case CasWaiting => KeepCas(s, WAITING_WORD, Waiting(s.native.worker.pos, s.native.worker.depth));
    case CasDelimiter => KeepCas(s, DELIMITER_WORD, Committing(s.native.worker.pos));
    case Wake => KeepRetry(s, false);
    case Interrupt => KeepInterrupt(s);
    case Structural => KeepStructural(s);
    case Execute(failed, strict) => KeepExecute(s, failed, strict);
    case CallbacksDone => KeepCallbacksDone(s);
    case StoreStatus => KeepStoreStatus(s);
    case MergeStatus => KeepMergeStatus(s);
    case Commit(ok) => KeepCommit(s, ok);
    case MarkCommitted(d) => KeepMarkCommitted(s, d);
  }

  lemma KeepStep(s: State, step: Step)
    requires Inv(s) && InRange(s) && Enabled(s, step)
    ensures Inv(Apply(s, step))
  {
    hide Inv, Enabled, Apply;
    match step
    case Allot(_, _) | BeginEventTurn(_) | BeginBlock(_) | EndBlock | EndEventTurn | PublishStartEarly
      | PublishOr | PublishRead | PublishStore | StartWriting => KeepProducerStep(s, step);
    case WorkerCallback | ProgressCallback | ReadDelimiter | BeginResolve | Walk | SettleTxn =>
      KeepPromiseStep(s, step);
    case _ => KeepWorkerStep(s, step);
  }

  lemma {:induction false} RunKeepsInv(run: seq<State>, i: nat)
    requires ValidRun(run) && i < |run|
    ensures Inv(run[i])
  {
    hide Inv, Apply, Enabled;
    if i == 0 {
      InitInv();
    } else {
      RunKeepsInv(run, i - 1);
      assert Transition(run[i - 1], run[i - 1 + 1]);
      var step :| Enabled(run[i - 1], step) && run[i] == Apply(run[i - 1], step);
      KeepStep(run[i - 1], step);
    }
  }

  lemma StepOf(run: seq<State>, i: nat) returns (step: Step)
    requires ValidRun(run) && i + 1 < |run|
    ensures Inv(run[i]) && InRange(run[i]) && Enabled(run[i], step) && run[i + 1] == Apply(run[i], step)
  {
    hide Inv, Apply, Enabled;
    RunKeepsInv(run, i);
    assert Transition(run[i], run[i + 1]);
    step :| Enabled(run[i], step) && run[i + 1] == Apply(run[i], step);
  }

  // ------------------------------------------------- executed once, in order

  ghost predicate Ascending(xs: seq<nat>) {
    forall a, b :: 0 <= a < b < |xs| ==> xs[a] < xs[b]
  }

  lemma {:induction false} OperationsAscend(kinds: seq<Kind>, n: nat)
    requires n <= |kinds|
    ensures Ascending(Operations(kinds, n))
    ensures forall j: nat :: j in Operations(kinds, n) <==> j < n && HasStatus(kinds[j])
    ensures forall a :: 0 <= a < |Operations(kinds, n)| ==> Operations(kinds, n)[a] < n
  {
    if n > 0 {
      OperationsAscend(kinds, n - 1);
    }
  }

  ghost predicate InProgress(n: Native, j: nat) {
    j == n.cursor && Executed(n.worker)
  }

  lemma LogOf(s: State)
    requires Inv(s)
    ensures s.native.cursor <= |s.mem.kinds| && |s.mem.words| == |s.mem.kinds| + 1
    ensures s.native.log == Operations(s.mem.kinds, s.native.cursor)
                            + (if Executed(s.native.worker) then [s.native.cursor] else [])
    ensures Executed(s.native.worker) ==>
              s.native.cursor < |s.mem.kinds| && HasStatus(s.mem.kinds[s.native.cursor])
              && s.mem.words[s.native.cursor].op.Published?
    ensures forall j :: 0 <= j < s.native.cursor ==>
              s.mem.words[j].op == Published(s.mem.kinds[j]) && (HasStatus(s.mem.kinds[j]) ==> s.mem.words[j].finished)
    ensures forall j :: 0 <= j < |s.mem.words| && s.mem.words[j].finished ==>
              j < |s.mem.kinds| && HasStatus(s.mem.kinds[j])
              && (j < s.native.cursor || InProgress(s.native, j))
  {
  }

  /** In every reachable state the instructions executed so far are in stream order, none
      twice; they are exactly the published ones before the cursor plus the one in progress,
      and exactly those are marked finished (the one in progress possibly not yet). */
  lemma ExecutedOnceInOrder(run: seq<State>, i: nat)
    requires ValidRun(run) && i < |run|
    ensures var s := run[i];
            && |s.mem.words| == |s.mem.kinds| + 1 && s.native.cursor <= |s.mem.kinds|
            && Ascending(s.native.log)
            && (forall j: nat :: j in s.native.log <==>
                  j < |s.mem.kinds| && HasStatus(s.mem.kinds[j])
                  && (j < s.native.cursor || InProgress(s.native, j)))
            && (forall j <- s.native.log :: s.mem.words[j].op.Published?
                  && (s.mem.words[j].finished || InProgress(s.native, j)))
            && (forall j: nat :: j < |s.mem.words| && s.mem.words[j].finished ==> j in s.native.log)
            && (forall j: nat :: j < s.native.cursor ==> s.mem.words[j].op.Published?)
  {
    RunKeepsInv(run, i);
    LogOf(run[i]);
    hide Inv;
    OperationsAscend(run[i].mem.kinds, run[i].native.cursor);
  }

  // ------------------------------------------------------------- hand-off

  /** Who is in charge of the word under the cursor. Exactly one of these holds once it is
      published: a worker is running at it, JavaScript remembers it as the start address, or
      a worker created for exactly that word is waiting for the lock. While it is not
      published nobody else has been started. */
  lemma OneOwnerOfTheCursor(run: seq<State>, i: nat)
    requires ValidRun(run) && i < |run|
    ensures var s := run[i];
            && s.native.cursor < |s.mem.words|
            && (Running(s.native.worker) ==>
                  s.native.worker.pos == s.native.cursor
                  && s.prod.startAddress.None? && s.native.spawned == [])
            && (!Running(s.native.worker) ==> s.mem.words[s.native.cursor].delimiter)
            && (!Running(s.native.worker) && s.mem.words[s.native.cursor].op.Published? ==>
                  (s.prod.startAddress == Some(s.native.cursor)) != (s.native.spawned == [s.native.cursor])
                  && |s.native.spawned| <= 1)
            && (!Running(s.native.worker) && s.mem.words[s.native.cursor].op.NoInstruction? ==>
                  s.prod.startAddress.None? && s.native.spawned == [])
  {
    RunKeepsInv(run, i);
  }

  // ------------------------------------------------------- bits survive

  /** A plain store inside a batch never lands on a delimiter and takes nothing but the waiting bit. */
  lemma PlainStoreIsSafe(run: seq<State>, i: nat)
    requires ValidRun(run) && i < |run| && run[i].prod.js.StoreFlags?
    ensures var s := run[i];
            && s.prod.js.at < |s.mem.kinds| && s.prod.js.at < |s.mem.words|
            && !s.mem.words[s.prod.js.at].delimiter && !s.prod.js.seen.delimiter
            && Keeps(s.mem.words[s.prod.js.at], EMPTY.(op := Published(s.mem.kinds[s.prod.js.at])))
  {
    RunKeepsInv(run, i);
    var s := run[i];
    PublishFacts(s.mem, s.prod, s.prom, s.native);
  }

  /** Block ends and jump records never carry a delimiter, and are never its place. */
  lemma StructuralWordsAreNotDelimiters(run: seq<State>, i: nat, k: nat)
    requires ValidRun(run) && i < |run| && k < |run[i].mem.words| && run[i].mem.words[k].delimiter
    ensures k < |run[i].mem.kinds| ==> HasStatus(run[i].mem.kinds[k])
  {
    RunKeepsInv(run, i);
  }

  ghost predicate KeepsAll(words: seq<Word>, words': seq<Word>) {
    && |words| <= |words'|
    && (forall k :: 0 <= k < |words| ==> Keeps(words[k], words'[k]))
  }

  lemma ProducerKeepsBits(s: State, step: Step)
    requires Inv(s) && InRange(s) && Enabled(s, step)
    requires step.Allot? || step.BeginEventTurn? || step.BeginBlock? || step.EndBlock? || step.EndEventTurn?
             || step.PublishStartEarly? || step.PublishOr? || step.PublishRead? || step.PublishStore?
             || step.StartWriting?
    ensures KeepsAll(s.mem.words, Apply(s, step).mem.words)
  {
    hide Shape, ProducerInv, PublishedWords, Consumer, Delimiters, Statuses, HandOff, WorkerLocals,
         CommitMarks, History, Queue, Walked, Settled;
    if step.PublishOr? || step.PublishStore? {
      PublishFacts(s.mem, s.prod, s.prom, s.native);
    }
  }

  lemma PromiseKeepsBits(s: State, step: Step)
    requires InRange(s) && Enabled(s, step)
    requires step.WorkerCallback? || step.ProgressCallback? || step.ReadDelimiter? || step.BeginResolve?
             || step.Walk? || step.SettleTxn?
    ensures KeepsAll(s.mem.words, Apply(s, step).mem.words)
  {
  }

  lemma WorkerFacts(s: State)
    requires Inv(s)
    ensures var w := s.native.worker;
            && (w.Merging? ==> w.pos < |s.mem.words| && w.seen == s.mem.words[w.pos])
            && (w.Loaded? && w.flags.op.NoInstruction? ==> Bare(w.flags))
  {
  }

  lemma WorkerKeepsBits(s: State, step: Step)
    requires Inv(s) && InRange(s) && Enabled(s, step)
    requires step.Acquire? || step.Load? || step.CasWaiting? || step.CasDelimiter? || step.Wake? || step.Interrupt?
             || step.Structural? || step.Execute? || step.CallbacksDone? || step.StoreStatus? || step.MergeStatus?
             || step.Commit? || step.MarkCommitted?
    ensures KeepsAll(s.mem.words, Apply(s, step).mem.words)
  {
    hide Inv;
    WorkerFacts(s);
  }

  lemma StepKeepsBits(s: State, step: Step)
    requires Inv(s) && InRange(s) && Enabled(s, step)
    ensures KeepsAll(s.mem.words, Apply(s, step).mem.words)
  {
    hide Inv, Enabled, Apply, KeepsAll;
    match step
    case Allot(_, _) | BeginEventTurn(_) | BeginBlock(_) | EndBlock | EndEventTurn | PublishStartEarly
      | PublishOr | PublishRead | PublishStore | StartWriting => ProducerKeepsBits(s, step);
    case WorkerCallback | ProgressCallback | ReadDelimiter | BeginResolve | Walk | SettleTxn =>
      PromiseKeepsBits(s, step);
    case _ => WorkerKeepsBits(s, step);
  }

  lemma KeepsTransitive(a: Word, b: Word, c: Word)
    requires Keeps(a, b) && Keeps(b, c)
    ensures Keeps(a, c)
  {
  }

  /** Over any stretch of any run, the instruction, delimiter, finished, failed, committed and
      error bits of every word all survive, whoever writes to the word in the meantime. */
  lemma {:induction false} BitsSurvive(run: seq<State>, i: nat, j: nat, k: nat)
    requires ValidRun(run) && i <= j < |run| && k < |run[i].mem.words|
    ensures k < |run[j].mem.words| && Keeps(run[i].mem.words[k], run[j].mem.words[k])
    decreases j
  {
    hide Inv, Apply, Enabled, InRange, Transition;
    if i < j {
      BitsSurvive(run, i, j - 1, k);
      var step := StepOf(run, j - 1);
      StepKeepsBits(run[j - 1], step);
      KeepsTransitive(run[i].mem.words[k], run[j - 1].mem.words[k], run[j].mem.words[k]);
    }
  }

  // ---------------------------------------------- commits outside blocks

  /** Blocks opened minus blocks closed among the first `n` instructions. */
  ghost function Nesting(kinds: seq<Kind>, n: nat): int
    requires n <= |kinds|
  {
    if n == 0 then 0 else Nesting(kinds, n - 1) + Delta(kinds[n - 1])
  }

  lemma {:induction false} DepthIsNesting(m: Stream, n: nat)
    requires Shape(m) && n <= |m.kinds|
    ensures m.depths[n] == Nesting(m.kinds, n)
  {
    if n > 0 {
      DepthIsNesting(m, n - 1);
      assert m.depths[n - 1 + 1] == m.depths[n - 1] + Delta(m.kinds[n - 1]);
    }
  }

  /** Every commit, at a delimiter or by interruption, falls where all blocks opened so far are
      closed: no batch or conditional block is split across two transactions. */
  lemma CommitsOutsideBlocks(run: seq<State>, i: nat)
    requires ValidRun(run) && i < |run|
    ensures forall c <- run[i].native.commits ::
              c <= run[i].native.cursor <= |run[i].mem.kinds| && Nesting(run[i].mem.kinds, c) == 0
  {
    RunKeepsInv(run, i);
    var s := run[i];
    forall c | c in s.native.commits
      ensures c <= s.native.cursor <= |s.mem.kinds| && Nesting(s.mem.kinds, c) == 0
    {
      var a :| 0 <= a < |s.native.commits| && s.native.commits[a] == c;
      DepthIsNesting(s.mem, c);
    }
  }

  /** An interruption commits what the worker has consumed so far, and the worker then looks at its word anew
      or goes on waiting for its callbacks. */
  lemma InterruptionCommits(run: seq<State>, i: nat)
    requires ValidRun(run) && i < |run| && InRange(run[i]) && Enabled(run[i], Interrupt)
    ensures var s, t := run[i], Apply(run[i], Interrupt);
            && t.native.commits == s.native.commits + [s.native.cursor] && t.native.cursor == s.native.cursor
            && t.mem == s.mem && t.native.log == s.native.log
            && s.native.cursor <= |s.mem.kinds| && Nesting(s.mem.kinds, s.native.cursor) == 0
            && (s.native.worker.Waiting? ==> t.native.worker == Loading(s.native.cursor, 0, false))
            && (s.native.worker.AwaitCallbacks? ==> t.native.worker == s.native.worker)
  {
    RunKeepsInv(run, i);
    InterruptedAtZero(run[i]);
    DepthIsNesting(run[i].mem, run[i].native.cursor);
    hide Inv;
  }

  lemma InterruptedAtZero(s: State)
    requires Inv(s) && (s.native.worker.Waiting? || s.native.worker.AwaitCallbacks?) && s.native.worker.depth == 0
    ensures s.native.worker.pos == s.native.cursor <= |s.mem.kinds| && |s.mem.depths| == |s.mem.kinds| + 1
    ensures s.mem.depths[s.native.cursor] == 0 && Shape(s.mem)
  {
    hide ProducerInv, PublishedWords, Delimiters, Statuses, HandOff, WorkerLocals, CommitMarks, History, Queue,
         Walked, Settled;
  }

  // -------------------------------------------------------------- promises

  /** Promises are settled once each, in queue order, without gaps. */
  lemma SettledOnceInOrder(run: seq<State>, i: nat)
    requires ValidRun(run) && i < |run|
    ensures var s := run[i];
            && Ascending(Indices(s.prom.settled))
            && s.prom.uncommitted <= |s.mem.kinds|
            && (forall j: nat :: j in Indices(s.prom.settled) <==>
                  j < s.prom.uncommitted && HasStatus(s.mem.kinds[j]))
  {
    RunKeepsInv(run, i);
    var s := run[i];
    OperationsAscend(s.mem.kinds, if s.prom.uncommitted < 0 then 0 else s.prom.uncommitted);
  }

  /** A promise is resolved only by a delimiter behind it whose transaction committed, and then
      with false exactly when the instruction's final status has the failed-condition bit; it is
      rejected only when that commit failed. Unless a pending delimiter has been overwritten, the
      delimiter is the one that ended the instruction's own transaction. */
  lemma SettledByOwnTransaction(run: seq<State>, i: nat, k: nat)
    requires ValidRun(run) && i < |run| && k < |run[i].prom.settled|
    ensures var s, e := run[i], run[i].prom.settled[k];
            && e.index < e.delim < |s.mem.words|
            && s.mem.words[e.index].finished && s.mem.words[e.delim].delimiter
            && (e.outcome.Resolved? <==> s.mem.words[e.delim].committed)
            && (e.outcome.Rejected? <==> s.mem.words[e.delim].hadError)
            && (e.outcome.Resolved? ==> e.outcome.ok == !s.mem.words[e.index].failedCondition)
            && (!s.prom.lost ==> NoDelimiterBetween(s.mem.words, e.index, e.delim))
  {
    RunKeepsInv(run, i);
    assert SettledBy(run[i].mem.words, run[i].prom.settled[k], run[i].prom.lost);
  }

  /** When the settling loop looks at the queued delimiter's word, every earlier promise has been
      walked, its recorded flag is final, and the queued promise still has its buffer. */
  lemma WalkedBeforeSettling(run: seq<State>, i: nat)
    requires ValidRun(run) && i < |run| && run[i].prod.js.CheckTxn? && run[i].prom.txnResolution.Some?
    ensures var s, d := run[i], run[i].prom.txnResolution.value;
            && d < |s.mem.words| && s.mem.words[d].delimiter && d !in s.prom.released
            && (forall j :: 0 <= j < d && j < |s.mem.kinds| && HasStatus(s.mem.kinds[j]) ==>
                  j in s.prom.flag && s.mem.words[j].finished
                  && s.prom.flag[j].failedCondition == s.mem.words[j].failedCondition)
  {
    RunKeepsInv(run, i);
  }
}
