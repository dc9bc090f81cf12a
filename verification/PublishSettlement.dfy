/** Progress of the promises: once an operation has been executed and its transaction has ended, its
    promise is settled, whether the commit succeeded or failed. */
module PublishSettlement {
  import opened Options
  import opened FlagWord
  import opened PublishProtocol
  import opened PublishInvariant
  import opened PublishPublication
  import opened PublishTheorems
  import opened PublishProgress

  /** The transaction that ends at this word has been committed, or has failed to commit. */
  ghost predicate Ended(w: Word) { w.committed || w.hadError }

  // ------------------------------------------------- what is never forgotten

  /** Every delimiter has been marked with its outcome, or its worker is about to do so. */
  ghost predicate Accounted(words: seq<Word>, lingering: map<nat, bool>, w: Worker) {
    forall d :: 0 <= d < |words| && words[d].delimiter ==>
      Ended(words[d]) || d in lingering || w == Committing(d)
  }

  /** The last of the queued delimiters is still linked, unless everything has been settled up to it. */
  ghost predicate LastLinked(q: Promises) {
    forall d <- q.isTxn ::
      || d <= q.uncommitted
      || (q.txnResolution.Some? && d <= q.txnResolution.value)
      || (q.nextTxn.Some? && d <= q.nextTxn.value)
  }

  /** A transaction that ended at the free slot is known to JavaScript, or a callback will tell it. */
  ghost predicate CallbackDue(words: seq<Word>, kinds: seq<Kind>, q: Promises, js: Js, completions: nat) {
    && |words| == |kinds| + 1
    && (|kinds| > 0 && Ended(words[|kinds|]) && |kinds| !in q.isTxn ==> completions > 0 || js.CheckDelimiter?)
  }

  ghost predicate Remembered(s: State) {
    && Accounted(s.mem.words, s.native.lingering, s.native.worker)
    && LastLinked(s.prom)
    && CallbackDue(s.mem.words, s.mem.kinds, s.prom, s.prod.js, s.native.completions)
  }

  // ---------------------------------------------------------- per-step proofs

  /** New slots are no delimiters. */
  lemma AllocateRemembers(m: Stream, k: Kind, jump: bool, lingering: map<nat, bool>, w: Worker)
    requires |m.words| == |m.kinds| + 1 == |m.depths| && Accounted(m.words, lingering, w)
    ensures var m' := Allocate(m, k, jump);
            && |m'.words| == |m'.kinds| + 1 && Accounted(m'.words, lingering, w)
            && !Ended(m'.words[|m'.kinds|])
  {
  }

  lemma ProducerRemembers(s: State, step: Step)
    requires InRange(s) && Enabled(s, step) && Remembered(s)
    requires step.Allot? || step.BeginEventTurn? || step.BeginBlock? || step.EndBlock? || step.EndEventTurn?
             || step.PublishStartEarly? || step.PublishRead? || step.StartWriting?
    ensures Remembered(Apply(s, step))
  {
    hide Accounted, LastLinked, Allocate;
    var n := s.native;
    match step
    case Allot(kind, jump) => AllocateRemembers(s.mem, kind, jump, n.lingering, n.worker);
    case BeginEventTurn(jump) => AllocateRemembers(s.mem, StartBlock, jump, n.lingering, n.worker);
    case BeginBlock(jump) => AllocateRemembers(s.mem, StartBlock, jump, n.lingering, n.worker);
    case EndBlock | EndEventTurn => AllocateRemembers(s.mem, BlockEnd, false, n.lingering, n.worker);
    case _ =>
  }

  lemma PublishRemembers(s: State, step: Step)
    requires Inv(s) && InRange(s) && Enabled(s, step) && Remembered(s)
    requires step.PublishOr? || step.PublishStore?
    ensures Remembered(Apply(s, step))
  {
    hide Shape, ProducerInv, PublishedWords, Consumer, Delimiters, Statuses, HandOff, WorkerLocals, CommitMarks,
         History, Queue, Walked, Settled;
    PublishFacts(s.mem, s.prod, s.prom, s.native);
    QueueBound(s);
  }

  lemma QueueBound(s: State)
    requires Inv(s)
    ensures forall d <- s.prom.isTxn :: d <= s.native.cursor
    ensures |s.mem.words| == |s.mem.kinds| + 1 && s.native.cursor <= |s.mem.kinds|
    ensures s.mem.words[|s.mem.kinds|].delimiter ==> |s.mem.kinds| == s.native.cursor
    ensures Ended(s.mem.words[|s.mem.kinds|]) ==> s.mem.words[|s.mem.kinds|].delimiter
    ensures s.prom.txnResolution.None? ==> s.prom.nextTxn.None?
    ensures s.prom.txnResolution.Some? ==> s.prom.uncommitted < s.prom.txnResolution.value
    ensures s.prom.nextTxn.Some? ==> s.prom.txnResolution.value < s.prom.nextTxn.value
  {
    hide Shape, ProducerInv, PublishedWords, Statuses, HandOff, WorkerLocals, CommitMarks, History, Walked, Settled;
  }

  /** Queueing the latest delimiter keeps the last one linked. */
  lemma QueueCommitLinks(q: Promises, r: nat)
    requires LastLinked(q) && (forall d <- q.isTxn :: d <= r)
    requires q.txnResolution.None? ==> q.nextTxn.None?
    requires q.nextTxn.Some? ==> q.txnResolution.value < q.nextTxn.value
    ensures LastLinked(QueueCommit(q, r)) && r in QueueCommit(q, r).isTxn
  {
  }

  lemma PromiseRemembers(s: State, step: Step)
    requires Inv(s) && InRange(s) && Enabled(s, step) && Remembered(s)
    requires step.WorkerCallback? || step.ProgressCallback? || step.ReadDelimiter? || step.BeginResolve?
             || step.Walk? || step.SettleTxn?
    ensures Remembered(Apply(s, step))
  {
    hide Inv, Accounted, LastLinked, SettleRange;
    QueueBound(s);
    if step.ReadDelimiter? {
      if s.mem.words[|s.mem.kinds|].delimiter {
        QueueCommitLinks(s.prom, |s.mem.kinds|);
      }
    } else {
      UnqueuedLinks(s, step);
    }
  }

  lemma UnqueuedLinks(s: State, step: Step)
    requires InRange(s) && Enabled(s, step) && LastLinked(s.prom)
    requires step.WorkerCallback? || step.ProgressCallback? || step.BeginResolve? || step.Walk? || step.SettleTxn?
    requires s.prom.txnResolution.Some? ==> s.prom.uncommitted < s.prom.txnResolution.value
    ensures LastLinked(Apply(s, step).prom)
  {
  }

  lemma WorkerRemembers(s: State, step: Step)
    requires Inv(s) && InRange(s) && Enabled(s, step) && Remembered(s)
    requires step.Acquire? || step.Load? || step.CasWaiting? || step.CasDelimiter? || step.Wake? || step.Interrupt?
             || step.Structural? || step.Execute? || step.CallbacksDone? || step.StoreStatus? || step.MergeStatus?
             || step.Commit? || step.MarkCommitted?
    ensures Remembered(Apply(s, step))
  {
    hide Inv, LastLinked, Accounted, CallbackDue, Enabled, Apply;
    WorkerFacts(s);
    if step.Acquire? || step.Load? || step.CasWaiting? || step.CasDelimiter? || step.Wake? || step.Interrupt? {
      ArrivingAccounts(s, step);
    } else if step.Structural? || step.Execute? || step.CallbacksDone? || step.StoreStatus? || step.MergeStatus? {
      ExecutingAccounts(s, step);
    } else {
      EndingAccounts(s, step);
    }
  }

  /** What a worker step has to keep; the promises are none of its business. */
  ghost predicate Accounts(s: State, t: State) {
    && Accounted(t.mem.words, t.native.lingering, t.native.worker)
    && CallbackDue(t.mem.words, t.mem.kinds, t.prom, t.prod.js, t.native.completions)
    && t.prom == s.prom
  }

  lemma ArrivingAccounts(s: State, step: Step)
    requires InRange(s) && Enabled(s, step) && Accounts(s, s)
    requires step.Acquire? || step.Load? || step.CasWaiting? || step.CasDelimiter? || step.Wake? || step.Interrupt?
    ensures Accounts(s, Apply(s, step))
  {
  }

  lemma ExecutingAccounts(s: State, step: Step)
    requires InRange(s) && Enabled(s, step) && Accounts(s, s)
    requires step.Structural? || step.Execute? || step.CallbacksDone? || step.StoreStatus? || step.MergeStatus?
    requires s.native.worker.Merging? ==> s.native.worker.seen == s.mem.words[s.native.worker.pos]
    ensures Accounts(s, Apply(s, step))
  {
  }

  lemma EndingAccounts(s: State, step: Step)
    requires InRange(s) && Enabled(s, step) && Accounts(s, s)
    requires step.Commit? || step.MarkCommitted?
    ensures Accounts(s, Apply(s, step))
  {
  }

  lemma StepRemembers(s: State, step: Step)
    requires Inv(s) && InRange(s) && Enabled(s, step) && Remembered(s)
    ensures Remembered(Apply(s, step))
  {
    hide Inv, Enabled, Apply, Remembered;
    match step
    case PublishOr | PublishStore => PublishRemembers(s, step);
    case Allot(_, _) | BeginEventTurn(_) | BeginBlock(_) | EndBlock | EndEventTurn | PublishStartEarly
      | PublishRead | StartWriting => ProducerRemembers(s, step);
    case WorkerCallback | ProgressCallback | ReadDelimiter | BeginResolve | Walk | SettleTxn =>
      PromiseRemembers(s, step);
    case _ => WorkerRemembers(s, step);
  }

  lemma {:induction false} RunRemembers(run: seq<State>, i: nat)
    requires ValidRun(run) && i < |run|
    ensures Remembered(run[i])
  {
    hide Inv, Apply, Enabled, InRange, Transition, Remembered;
    if i == 0 {
      InitRemembers();
    } else {
      RunRemembers(run, i - 1);
      var step := StepOf(run, i - 1);
      StepRemembers(run[i - 1], step);
    }
  }

  lemma InitRemembers()
    ensures Remembered(Init())
  {
  }

  // ----------------------------------------------------------------- progress

  /** Instruction `j` has an unsettled promise, if it has one, and a transaction ended behind it at `d`. */
  ghost predicate Unsettled(s: State, j: nat, d: nat) {
    j < d < |s.mem.words| && Ended(s.mem.words[d]) && s.prom.uncommitted <= j
  }

  /** The first delimiter in the queue of JavaScript still waits for its worker to record the outcome. */
  ghost predicate HeadOpen(s: State) {
    s.prom.txnResolution.Some? && s.prom.txnResolution.value < |s.mem.words|
    && !Ended(s.mem.words[s.prom.txnResolution.value])
  }

  predicate JavaScriptStep(step: Step) {
    step.PublishStartEarly? || step.PublishOr? || step.PublishRead? || step.PublishStore? || step.WorkerCallback?
    || step.ReadDelimiter? || step.BeginResolve? || step.Walk? || step.SettleTxn?
  }

  /** The next step towards settling the promises in front of `d`: JavaScript finishes what it is doing and
      runs the completion callbacks; only a queued delimiter without an outcome is waited for. Its
      transaction may commit or fail. */
  ghost function SettleDriver(s: State, d: nat, ok: bool): Step {
    if HeadOpen(s) then
      if s.prom.txnResolution.value in s.native.lingering then MarkCommitted(s.prom.txnResolution.value)
      else Commit(ok)
    else if !s.prod.js.Ready? then JsDriver(s.prod.js)
    else if s.prom.txnResolution.None? && d < |s.mem.kinds| then PublishStartEarly
    else if s.native.completions > 0 then WorkerCallback
    else BeginResolve
  }

  /** How far the queue is from a delimiter whose outcome is known. */
  ghost function HeadRank(s: State): nat {
    if s.prom.txnResolution.None? then 3
    else if !HeadOpen(s) then 0
    else if s.prom.txnResolution.value in s.native.lingering then 1
    else 2
  }

  /** How far JavaScript is from queueing `d`, or, with something queued, from settling it. */
  ghost function WalkRank(s: State, d: nat): nat {
    var js, none := s.prod.js, s.prom.txnResolution.None?;
    var behind := if s.prom.unwritten < |s.mem.kinds| then |s.mem.kinds| - s.prom.unwritten else 0;
    var free := if none then 1 else |s.mem.kinds| + 5;
    match js
    case CheckTxn => 2
    case WalkFinished => behind + 3
    case CheckDelimiter => if none && d == |s.mem.kinds| then 0 else |s.mem.kinds| + 4
    case Ready => free
    case OrFlags(at, start) => if none && at == d then 0 else free + if start.Some? then 2 else 1
    case StoreFlags(_, start, _) => free + if start.Some? then 2 else 1
    case ReadStatus(_, start) => free + if start.Some? then 3 else 2
  }

  /** More is settled, or a known outcome is nearer, or JavaScript is nearer to looking at it. */
  ghost predicate Closer(s: State, t: State, d: nat) {
    && |t.mem.words| == |s.mem.words| && t.mem.kinds == s.mem.kinds
    && (|| t.prom.uncommitted > s.prom.uncommitted
        || (t.prom.uncommitted == s.prom.uncommitted
            && (|| HeadRank(t) < HeadRank(s)
                || (HeadRank(t) == HeadRank(s) && WalkRank(t, d) < WalkRank(s, d)))))
  }

  lemma HeadFacts(s: State)
    requires Inv(s) && Remembered(s)
    ensures var q, t := s.prom, s.prom.txnResolution;
            && (t.Some? ==>
                  t.value < |s.mem.words| && q.uncommitted < t.value
                  && (Ended(s.mem.words[t.value]) || t.value in s.native.lingering
                      || s.native.worker == Committing(t.value)))
            && (t.None? ==> q.nextTxn.None?)
            && q.unwritten <= |s.mem.kinds|
  {
    hide Shape, ProducerInv, PublishedWords, Consumer, Delimiters, Statuses, HandOff, WorkerLocals, CommitMarks,
         History, Settled;
  }

  /** With nothing queued, the delimiter behind an unsettled promise is one JavaScript is about to meet. */
  lemma NextFacts(s: State, j: nat, d: nat)
    requires Inv(s) && Remembered(s) && Unsettled(s, j, d) && s.prom.txnResolution.None?
    ensures d !in s.prom.isTxn && d <= |s.mem.kinds| && s.mem.words[d].delimiter
    ensures d == |s.mem.kinds| ==> s.native.completions > 0 || s.prod.js.CheckDelimiter?
    ensures d < |s.mem.kinds| ==> d in Pending(s.prod)
  {
    hide Shape, ProducerInv, Consumer, Statuses, HandOff, WorkerLocals, CommitMarks, History, Walked, Settled;
  }

  lemma OpenHeadCloser(s: State, d: nat, ok: bool)
    requires InRange(s) && HeadOpen(s)
    requires var t := s.prom.txnResolution.value; t in s.native.lingering || s.native.worker == Committing(t)
    ensures Enabled(s, SettleDriver(s, d, ok)) && Closer(s, Apply(s, SettleDriver(s, d, ok)), d)
  {
  }

  lemma PublishingCloser(s: State, d: nat, ok: bool)
    requires InRange(s) && !HeadOpen(s) && Publishing(s.prod.js) && s.prom.unwritten <= |s.mem.kinds|
    requires !s.prod.js.OrFlags? ==> Bare(s.mem.words[s.prod.js.at])
    requires s.prod.js.StoreFlags? ==> !s.prod.js.seen.delimiter
    requires s.prom.txnResolution.None? && s.prod.js.at == d ==>
               d !in s.prom.isTxn && s.mem.words[d].delimiter && s.mem.kinds[d] != BlockEnd
    ensures Enabled(s, SettleDriver(s, d, ok)) && Closer(s, Apply(s, SettleDriver(s, d, ok)), d)
  {
  }

  lemma WalkingCloser(s: State, d: nat, ok: bool)
    requires InRange(s) && !HeadOpen(s) && !Publishing(s.prod.js) && !s.prod.js.Ready?
    requires s.prom.txnResolution.Some? ==> s.prom.uncommitted < s.prom.txnResolution.value
    requires s.prom.txnResolution.None? && d == |s.mem.kinds| ==> d !in s.prom.isTxn && s.mem.words[d].delimiter
    ensures Enabled(s, SettleDriver(s, d, ok)) && Closer(s, Apply(s, SettleDriver(s, d, ok)), d)
  {
  }

  lemma FreeCloser(s: State, d: nat, ok: bool)
    requires InRange(s) && !HeadOpen(s) && s.prod.js.Ready?
    requires s.prom.txnResolution.None? ==>
               if d < |s.mem.kinds| then s.prod.pendingStart == Some(d)
               else d == |s.mem.kinds| && s.native.completions > 0
    ensures Enabled(s, SettleDriver(s, d, ok)) && Closer(s, Apply(s, SettleDriver(s, d, ok)), d)
  {
  }

  lemma PublishingFacts(s: State)
    requires Inv(s) && Publishing(s.prod.js)
    ensures s.prod.js.at < |s.mem.kinds| < |s.mem.words|
    ensures !s.prod.js.OrFlags? ==> Bare(s.mem.words[s.prod.js.at])
    ensures s.prod.js.StoreFlags? ==> !s.prod.js.seen.delimiter
    ensures s.mem.words[s.prod.js.at].delimiter ==> s.mem.kinds[s.prod.js.at] != BlockEnd
  {
    hide Shape, ProducerInv, PublishedWords, Consumer, Delimiters, Statuses, HandOff, WorkerLocals, CommitMarks,
         History, Queue, Walked, Settled;
    PublishFacts(s.mem, s.prod, s.prom, s.native);
  }

  /** Whenever a transaction has ended behind an unsettled promise, whatever JavaScript and the workers are
      in the middle of, an enabled step brings the settlement strictly nearer, by a measure that cannot sink
      for ever. It is a step of JavaScript unless the first queued delimiter has no outcome yet. */
  lemma SettlementNeverStuck(run: seq<State>, i: nat, j: nat, d: nat, ok: bool)
    requires ValidRun(run) && i < |run| && Unsettled(run[i], j, d)
    ensures var s, step := run[i], SettleDriver(run[i], d, ok);
            && InRange(s) && Enabled(s, step) && Closer(s, Apply(s, step), d)
            && (!HeadOpen(s) ==> JavaScriptStep(step))
  {
    hide Inv, Remembered, Enabled, Apply, Closer, Pending, Transition;
    var s := run[i];
    RunKeepsInv(run, i);
    RunRemembers(run, i);
    InvInRange(s);
    HeadFacts(s);
    if s.prom.txnResolution.None? {
      NextFacts(s, j, d);
    }
    if HeadOpen(s) {
      OpenHeadCloser(s, d, ok);
    } else if Publishing(s.prod.js) {
      PublishingFacts(s);
      PublishingCloser(s, d, ok);
    } else if s.prod.js.Ready? {
      if s.prom.txnResolution.None? && d < |s.mem.kinds| {
        StartIsPending(s.prod, d);
      }
      FreeCloser(s, d, ok);
    } else {
      WalkingCloser(s, d, ok);
    }
  }

  lemma StartIsPending(p: Producer, d: nat)
    requires d in Pending(p) && p.js.Ready?
    ensures p.pendingStart == Some(d)
  {
  }

  // ------------------------------------------------------------ continuations

  lemma StaysUnsettled(run: seq<State>, run': seq<State>, j: nat, d: nat)
    requires ValidRun(run') && run != [] && Continues(run, run') && Unsettled(Last(run), j, d)
    requires Last(run').prom.uncommitted <= j
    ensures Unsettled(Last(run'), j, d)
  {
    hide Transition, Inv;
    BitsSurvive(run', |run| - 1, |run'| - 1, d);
    assert run'[|run| - 1] == run'[..|run|][|run| - 1];
  }

  /** How much of the queue is still to be settled. */
  ghost function Unsettledness(s: State): nat {
    if s.prom.uncommitted < |s.mem.words| then |s.mem.words| - s.prom.uncommitted else 0
  }

  lemma SettlesPast(run: seq<State>, j: nat, d: nat, ok: bool) returns (run': seq<State>)
    requires ValidRun(run) && Unsettled(Last(run), j, d)
    ensures ValidRun(run') && Continues(run, run') && Last(run').prom.uncommitted > j
    ensures Last(run').mem.kinds == Last(run).mem.kinds
    decreases Unsettledness(Last(run)), HeadRank(Last(run)), WalkRank(Last(run), d)
  {
    hide Inv, Enabled, Apply, SettleDriver, InRange, HeadRank, WalkRank, Transition;
    var s := Last(run);
    SettlementNeverStuck(run, |run| - 1, j, d, ok);
    var longer := ExtendBy(run, SettleDriver(s, d, ok));
    if Last(longer).prom.uncommitted > j {
      return longer;
    }
    StaysUnsettled(run, longer, j, d);
    run' := SettlesPast(longer, j, d, ok);
    assert run'[..|run|] == run'[..|longer|][..|run|];
  }

  /** The settlement of instruction `j`, by the outcome of the delimiter that settled it. */
  ghost predicate SettledAs(s: State, j: nat, e: Settlement) {
    && e in s.prom.settled && e.index == j
    && j < e.delim < |s.mem.words| && s.mem.words[j].finished && Ended(s.mem.words[e.delim])
    && e.outcome == (if s.mem.words[e.delim].committed then Resolved(!s.mem.words[j].failedCondition) else Rejected)
    && (!s.prom.lost ==> NoDelimiterBetween(s.mem.words, j, e.delim))
  }

  lemma PassedIsSettled(run: seq<State>, i: nat, j: nat) returns (e: Settlement)
    requires ValidRun(run) && i < |run|
    requires j < run[i].prom.uncommitted && j < |run[i].mem.kinds| && HasStatus(run[i].mem.kinds[j])
    ensures SettledAs(run[i], j, e)
  {
    hide Inv, Transition, Enabled, Apply, InRange;
    var s := run[i];
    SettledOnceInOrder(run, i);
    assert j in Indices(s.prom.settled);
    var k :| 0 <= k < |Indices(s.prom.settled)| && Indices(s.prom.settled)[k] == j;
    e := s.prom.settled[k];
    SettledByOwnTransaction(run, i, k);
  }

  /** From every reachable state in which a transaction has ended behind an unsettled promise the run can go
      on, without any further operation, until the promise is settled: with true or false by its own status
      if the transaction that settles it was committed, rejected if that failed. Unless a pending link has
      been overwritten, that is the transaction ending at `d` if none ended before it. */
  lemma PromiseIsSettled(run: seq<State>, j: nat, d: nat, ok: bool) returns (run': seq<State>, e: Settlement)
    requires ValidRun(run) && Unsettled(Last(run), j, d)
    requires j < |Last(run).mem.kinds| && HasStatus(Last(run).mem.kinds[j])
    ensures ValidRun(run') && Continues(run, run') && Last(run').mem.kinds == Last(run).mem.kinds
    ensures SettledAs(Last(run'), j, e)
    ensures !Last(run').prom.lost && NoDelimiterBetween(Last(run').mem.words, j, d) ==> e.delim == d
  {
    hide Inv, Transition, Enabled, Apply, InRange;
    run' := SettlesPast(run, j, d, ok);
    e := PassedIsSettled(run', |run'| - 1, j);
    StillDelimiter(run, run', d);
    StillDelimiter(run', run', e.delim);
  }

  lemma StillDelimiter(run: seq<State>, run': seq<State>, d: nat)
    requires ValidRun(run') && run != [] && Continues(run, run')
    requires d < |Last(run).mem.words| && Ended(Last(run).mem.words[d])
    ensures d < |Last(run').mem.words| && Last(run').mem.words[d].delimiter
  {
    hide Transition;
    BitsSurvive(run', |run| - 1, |run'| - 1, d);
    assert run'[|run| - 1] == run'[..|run|][|run| - 1];
    RunKeepsInv(run', |run'| - 1);
    hide Shape, ProducerInv, PublishedWords, Consumer, Statuses, HandOff, WorkerLocals, CommitMarks, History, Queue,
         Walked, Settled;
  }
}
