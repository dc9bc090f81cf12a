/** How JavaScript and a write worker share the single write transaction: the mutex
    `writingLock`, the condition `writingCond`, the interruption status and the stack
    of open JavaScript transactions. A state machine whose steps are the stretches of
    code between two lock or wait operations. */
module BatchInterruption {

  datatype Status = Clear | AllowCommit | InterruptBatch | RestartWorkerTxn | UserHasLock

  datatype Owner = Free | ByWorker | ByJs

  /** A write worker. `depth` is DoWrites' conditionDepth; `signalled` says that a
      condition wait has been woken but has not got the lock back yet. */
  datatype Worker =
    | Absent
    | Queued                                                   // blocked in pthread_mutex_lock
    | Run(depth: nat)                                          // DoWrites, transaction open
    | Waiting(depth: nat, timed: bool, signalled: bool)        // WaitForCallbacks, lock released
    | Woken(depth: nat, timed: bool)                           // WaitForCallbacks, lock taken back
    | Interrupting(depth: nat)                                 // about to commit for JavaScript
    | WaitRestart(depth: nat, signalled: bool)                 // committed, second wait
    | Ending(depth: nat)                                       // DoWrites returned at a delimiter
    | Done                                                     // committed and unlocked, object still attached

  /** How a TxnTracked on the JavaScript stack came about. */
  datatype Txn =
    | Root       // mdbx_txn_begin without parent
    | Child      // nested in the transaction below it, or in the worker's
    | Borrowed   // the worker's own transaction
    | Progress   // the worker's own transaction, during HandleProgressCallback

  datatype Js =
    | Idle
    | WantLock(sync: bool, abortable: bool, attached: bool)
    | InterruptWait(signalled: bool)
    | ProgressLock
    | ProgressWait(signalled: bool)

  datatype Previous = Gone | StillEnding(depth: nat)

  datatype State = State(
    lock: Owner,
    status: Status,
    worker: Worker,      // ew->writeWorker
    previous: Previous,  // the previous worker, while it is still Ending
    callbacks: bool,     // !finishedProgress: user callbacks are due
    js: Js,
    stack: seq<Txn>,     // ew->writeTxn and its parents, innermost last
    commits: seq<nat>)   // history: conditionDepth at each commit by a worker

  const INIT := State(Free, Clear, Absent, Gone, false, Idle, [], [])

  /** The worker has an open write transaction. */
  predicate Live(w: Worker) {
    w.Run? || w.Waiting? || w.Woken? || w.Interrupting? || w.Ending?
  }

  // ------------------------------------------------------------ signalling

  predicate WorkerBlocked(w: Worker) {
    (w.Waiting? && !w.signalled) || (w.WaitRestart? && !w.signalled)
  }

  predicate JsBlocked(js: Js) {
    (js.InterruptWait? && !js.signalled) || (js.ProgressWait? && !js.signalled)
  }

  function WakeWorker(w: Worker): Worker {
    match w
    case Waiting(d, t, _) => Waiting(d, t, true)
    case WaitRestart(d, _) => WaitRestart(d, true)
    case _ => w
  }

  function WakeJs(js: Js): Js {
    match js
    case InterruptWait(_) => InterruptWait(true)
    case ProgressWait(_) => ProgressWait(true)
    case _ => js
  }

  /** pthread_cond_signal: wakes one blocked thread if there is one; `preferJs` is the
      scheduler's choice when both are blocked. */
  function Signal(s: State, preferJs: bool): State {
    if JsBlocked(s.js) && (preferJs || !WorkerBlocked(s.worker)) then s.(js := WakeJs(s.js))
    else s.(worker := WakeWorker(s.worker))
  }

  // ----------------------------------------------------------------- steps

  datatype Step =
    | StartWorker
    | WorkerLock
    | Instruction(depth: nat)          // DoWrites moves on
    | UserCallback                     // USER_CALLBACK instruction: callbacks become due
    | Wait(timed: bool, preferJs: bool)
    | WorkerWake
    | Check(exit: bool)                // loop test after a wake-up
    | CommitInterrupted(preferJs: bool)
    | Restart
    | End
    | Finish
    | FinishOld
    | Detach
    | Begin(sync: bool, abortable: bool)
    | JsLock(writemap: bool, preferJs: bool)
    | Resume
    | Nest
    | Close(preferJs: bool)            // commitTxn or abortTxn
    | Poke(preferJs: bool)             // env.write(0)
    | Callbacks
    | CallbacksLock
    | CallbacksResume
    | CallbacksDone(preferJs: bool)

  predicate Enabled(s: State, step: Step) {
    var idle := s.js.Idle? && s.stack == [];
    match step
    case StartWorker => idle && (s.worker.Absent? || s.worker.Done? || (s.worker.Ending? && s.previous.Gone?))
    case WorkerLock => s.worker.Queued? && s.lock.Free?
    case Instruction(depth) => s.worker.Run? && (depth <= s.worker.depth + 1)
    case UserCallback => s.worker.Run?
    case Wait(timed, _) => s.worker.Run? && (timed || s.callbacks)   // untimed only for strict-order callbacks
    case WorkerWake => s.worker.Waiting? && (s.worker.signalled || s.worker.timed) && s.lock.Free?
    case Check(_) => s.worker.Woken?
    case CommitInterrupted(_) => s.worker.Interrupting?
    case Restart => s.worker.WaitRestart? && s.worker.signalled && s.lock.Free?
    case End => s.worker.Run? && s.worker.depth == 0 && !s.callbacks
    case Finish => s.worker.Ending?
    case FinishOld => s.previous.StillEnding?
    case Detach => idle && s.worker.Done?
    case Begin(_, _) => idle
    case JsLock(_, _) => s.js.WantLock? && s.lock.Free?
    case Resume => s.js.InterruptWait? && s.js.signalled && s.lock.Free?
    case Nest => s.js.Idle? && s.stack != []
    case Close(_) => s.js.Idle? && s.stack != [] && s.stack[|s.stack| - 1] != Progress
    case Poke(_) => idle
    case Callbacks => idle && s.callbacks && !s.worker.Absent?
    case CallbacksLock => s.js.ProgressLock? && s.lock.Free?
    case CallbacksResume => s.js.ProgressWait? && s.js.signalled && s.lock.Free?
    case CallbacksDone(_) => s.js.Idle? && s.stack == [Progress]
  }

  /** WaitForCallbacks after the lock has been taken back. */
  function DoCheck(s: State, exit: bool): State
    requires s.worker.Woken?
  {
    var d, timed := s.worker.depth, s.worker.timed;
    if timed && !(exit || (d == 0 && s.status.InterruptBatch?)) then
      s.(worker := Waiting(d, timed, false), lock := Free)
    else if s.status.InterruptBatch? then
      s.(worker := Interrupting(d), status := RestartWorkerTxn)
    else s.(worker := Run(d), status := Clear)
  }

  /** AcquireTxn with the lock in hand, then the rest of beginTxn. */
  function DoJsLock(s: State, writemap: bool, preferJs: bool): State
    requires s.js.WantLock?
  {
    if s.js.attached && s.js.sync && s.status.AllowCommit? then
      var t := Signal(s.(status := InterruptBatch), preferJs);
      t.(js := InterruptWait(false), lock := Free)
    else
      var txn := if !(s.js.attached && Live(s.worker)) then Root
                 else if s.js.abortable && !writemap then Child else Borrowed;
      s.(lock := ByJs, status := if s.js.attached then UserHasLock else s.status,
         js := Idle, stack := [txn])
  }

  /** commitTxn / abortTxn: the last one to close gives the lock back. */
  function DoClose(s: State, preferJs: bool): State
    requires s.stack != []
  {
    var rest := s.stack[..|s.stack| - 1];
    if rest != [] then s.(stack := rest)
    else if s.worker.Absent? then s.(stack := [], lock := Free)
    else Signal(s.(stack := [], status := Clear), preferJs).(lock := Free)
  }

  function DoCallbacksLock(s: State): State {
    if Live(s.worker) then s.(lock := ByJs, js := Idle, callbacks := false, stack := [Progress])
    else s.(js := ProgressWait(false))
  }

  function Apply(s: State, step: Step): State
    requires Enabled(s, step)
  {
    match step
    case StartWorker =>
      s.(worker := Queued, previous := if s.worker.Ending? then StillEnding(s.worker.depth) else s.previous,
          status := Clear, callbacks := false)
    case WorkerLock => s.(lock := ByWorker, worker := Run(0))
    case Instruction(depth) => s.(worker := Run(depth))
    case UserCallback => s.(callbacks := true)
    case Wait(timed, preferJs) =>
      var d := s.worker.depth;
      var t := Signal(s, preferJs);
      t.(worker := Waiting(d, timed, false), lock := Free, status := if d == 0 then AllowCommit else Clear)
    case WorkerWake => s.(worker := Woken(s.worker.depth, s.worker.timed), lock := ByWorker)
    case Check(exit) => DoCheck(s, exit)
    case CommitInterrupted(preferJs) =>
      var d := s.worker.depth;
      var t := Signal(s, preferJs);
      t.(worker := WaitRestart(d, false), lock := Free, commits := s.commits + [d])
    case Restart => s.(worker := Run(s.worker.depth), lock := ByWorker, status := Clear)
    case End => s.(worker := Ending(s.worker.depth))
    case Finish => s.(worker := Done, lock := Free, commits := s.commits + [s.worker.depth])
    case FinishOld => s.(previous := Gone, lock := Free, commits := s.commits + [s.previous.depth])
    case Detach => s.(worker := Absent)
    case Begin(sync, abortable) => s.(js := WantLock(sync, abortable, !s.worker.Absent?))
    case JsLock(writemap, preferJs) => DoJsLock(s, writemap, preferJs)
    case Resume => s.(js := Idle, lock := ByJs, stack := [Root])
    case Nest => s.(stack := s.stack + [Child])
    case Close(preferJs) => DoClose(s, preferJs)
    case Poke(preferJs) => Signal(s, preferJs)
    case Callbacks => s.(js := ProgressLock)
    case CallbacksLock => DoCallbacksLock(s)
    case CallbacksResume => DoCallbacksLock(s)
    case CallbacksDone(preferJs) => Signal(s.(stack := []), preferJs).(lock := Free)
  }

  // ------------------------------------------------------------- invariant

  predicate HoldsLock(w: Worker) {
    w.Run? || w.Woken? || w.Interrupting? || w.Ending?
  }

  predicate Locking(s: State) {
    && (s.lock.ByWorker? <==> HoldsLock(s.worker) || s.previous.StillEnding?)
    && (s.lock.ByJs? <==> s.stack != [])
    && (s.previous.StillEnding? ==> s.worker.Queued? && s.previous.depth == 0)
    && (s.stack != [] ==> s.js.Idle?)
  }

  predicate StackShape(s: State) {
    && (s.stack != [] ==>
          if s.stack[0].Root? then !Live(s.worker) && s.previous.Gone? else s.worker.Waiting?)
    && (forall i :: 1 <= i < |s.stack| ==> s.stack[i].Child?)
  }

  /** The interruption handshake: what each status value says about both sides. */
  predicate Handshake(s: State) {
    && (s.status.AllowCommit? ==> (s.worker.Waiting? || s.worker.Woken?) && s.worker.depth == 0)
    && (s.status.InterruptBatch? <==>
          s.js == InterruptWait(false) && (s.worker.Waiting? || s.worker.Woken?))
    && (s.status.InterruptBatch? ==> s.worker.depth == 0 && (s.worker.Waiting? ==> s.worker.signalled))
    && (s.worker.Interrupting? ==>
          s.worker.depth == 0 && s.status.RestartWorkerTxn? && s.js == InterruptWait(false))
    && (s.worker.WaitRestart? ==> s.worker.depth == 0)
    && (s.js == InterruptWait(false) ==> s.status.InterruptBatch? || s.worker.Interrupting?)
    && (s.js == InterruptWait(true) ==> s.worker == WaitRestart(0, false))
    && (s.worker.WaitRestart? && !s.worker.signalled ==>
          s.js == InterruptWait(true) || (s.stack != [] && s.stack[0].Root?))
  }

  predicate CallbackInv(s: State) {
    && (s.callbacks ==> Live(s.worker) || s.worker.WaitRestart?)
    && (s.worker.Ending? ==> !s.callbacks && s.worker.depth == 0)
    && (s.js.ProgressLock? || s.js.ProgressWait? ==> s.callbacks)
    && (s.js == ProgressWait(false) ==> Live(s.worker) || s.worker.WaitRestart?)
    && (s.js.WantLock? ==> s.js.attached == !s.worker.Absent?)
  }

  predicate Commits(s: State) {
    forall i :: 0 <= i < |s.commits| ==> s.commits[i] == 0
  }

  /** A worker asleep without a timeout has callbacks due, or JavaScript is inside a transaction at
      whose end it signals; and it has woken a JavaScript thread that was waiting for it. */
  predicate Waiters(s: State) {
    && (s.worker.Waiting? && !s.worker.timed && !s.worker.signalled ==> s.callbacks || s.stack != [])
    && (s.worker.Waiting? || s.worker.Woken? ==> s.js != ProgressWait(false))
  }

  predicate Inv(s: State) {
    Locking(s) && StackShape(s) && Handshake(s) && CallbackInv(s) && Waiters(s) && Commits(s)
  }

  lemma KeepLocking(s: State, step: Step)
    requires Inv(s) && Enabled(s, step)
    ensures Locking(Apply(s, step))
  {
    hide Commits, Waiters;
  }

  lemma KeepStack(s: State, step: Step)
    requires Inv(s) && Enabled(s, step)
    ensures StackShape(Apply(s, step))
  {
  }

  lemma KeepHandshake(s: State, step: Step)
    requires Inv(s) && Enabled(s, step)
    ensures Handshake(Apply(s, step))
  {
    hide Commits;
  }

  lemma KeepCallbackInv(s: State, step: Step)
    requires Inv(s) && Enabled(s, step)
    ensures CallbackInv(Apply(s, step))
  {
  }

  lemma KeepWaiters(s: State, step: Step)
    requires Inv(s) && Enabled(s, step)
    ensures Waiters(Apply(s, step))
  {
    hide Commits;
  }

  lemma KeepCommits(s: State, step: Step)
    requires Inv(s) && Enabled(s, step)
    ensures Commits(Apply(s, step))
  {
  }

  lemma Keep(s: State, step: Step)
    requires Inv(s) && Enabled(s, step)
    ensures Inv(Apply(s, step))
  {
    hide Locking, StackShape, Handshake, CallbackInv, Waiters, Commits, Apply, Enabled;
    KeepLocking(s, step);
    KeepStack(s, step);
    KeepHandshake(s, step);
    KeepCallbackInv(s, step);
    KeepWaiters(s, step);
    KeepCommits(s, step);
  }

  // -------------------------------------------------------------- theorems

  ghost predicate Transition(s: State, s': State) {
    exists step :: Enabled(s, step) && s' == Apply(s, step)
  }

  ghost predicate ValidRun(run: seq<State>) {
    && |run| > 0 && run[0] == INIT
    && (forall i :: 0 <= i < |run| - 1 ==> Transition(run[i], run[i + 1]))
  }

  lemma {:induction false} RunKeepsInv(run: seq<State>, i: nat)
    requires ValidRun(run) && i < |run|
    ensures Inv(run[i])
  {
    hide Apply, Enabled;
    if i > 0 {
      RunKeepsInv(run, i - 1);
      assert Transition(run[i - 1], run[i - 1 + 1]);
      var step :| Enabled(run[i - 1], step) && run[i] == Apply(run[i - 1], step);
      Keep(run[i - 1], step);
    }
  }

  function Writers(s: State): nat {
    (if Live(s.worker) then 1 else 0) + (if s.previous.StillEnding? then 1 else 0)
    + (if s.stack != [] && s.stack[0].Root? then 1 else 0)
  }

  /** There is never more than one top-level write transaction: the worker's, that of the worker
      before it, or a root transaction opened by JavaScript. Every other transaction JavaScript has
      open is the worker's own or nested in it, and then the worker is parked in WaitForCallbacks. */
  lemma OneWriter(run: seq<State>, i: nat)
    requires ValidRun(run) && i < |run|
    ensures var s := run[i];
            && Writers(s) <= 1
            && (s.stack != [] && !s.stack[0].Root? ==> s.worker.Waiting?)
            && (forall k :: 1 <= k < |s.stack| ==> s.stack[k].Child?)
  {
    RunKeepsInv(run, i);
  }

  /** A worker commits, at the end of its batch or for an interruption, only with no condition
      block open: the recorded depth of every commit is 0. */
  lemma NoBlockIsSplit(run: seq<State>, i: nat)
    requires ValidRun(run) && i < |run|
    ensures forall k :: 0 <= k < |run[i].commits| ==> run[i].commits[k] == 0
    ensures run[i].worker.Interrupting? || run[i].worker.WaitRestart? || run[i].worker.Ending? ==>
              run[i].worker.depth == 0
  {
    RunKeepsInv(run, i);
  }

  /** JavaScript holds the lock exactly while it has a transaction open; a worker holds it
      exactly while it runs. */
  lemma LockFollowsTransactions(run: seq<State>, i: nat)
    requires ValidRun(run) && i < |run|
    ensures var s := run[i];
            && (s.lock.ByJs? <==> s.stack != [])
            && (s.lock.ByWorker? <==> HoldsLock(s.worker) || s.previous.StillEnding?)
  {
    RunKeepsInv(run, i);
  }

  /** The step that brings a synchronous transaction waiting for an interruption nearer. */
  function Driver(s: State): Step {
    match s.worker
    case Waiting(_, _, _) => WorkerWake
    case Woken(_, _) => Check(false)
    case Interrupting(_) => CommitInterrupted(true)
    case _ => Resume
  }

  function Distance(s: State): nat {
    match s.worker
    case Waiting(_, _, _) => 4
    case Woken(_, _) => 3
    case Interrupting(_) => 2
    case _ => 1
  }

  /** Once JavaScript has asked for an interruption nobody gets stuck: the next step of the
      handshake is always enabled, each brings it closer, and it ends with JavaScript holding the
      lock and a root transaction while the worker has committed and waits. */
  lemma InterruptionCompletes(run: seq<State>, i: nat)
    requires ValidRun(run) && i < |run| && run[i].js.InterruptWait?
    ensures var s := run[i];
            && Enabled(s, Driver(s))
            && var t := Apply(s, Driver(s));
            if Driver(s).Resume? then
              t.js.Idle? && t.lock.ByJs? && t.stack == [Root] && t.worker == WaitRestart(0, false)
            else t.js.InterruptWait? && Distance(t) < Distance(s)
  {
    RunKeepsInv(run, i);
  }

  /** A worker that was interrupted is always woken again: it stays unsignalled only as long as
      the synchronous transaction it made room for has not been closed. */
  lemma InterruptedWorkerResumes(run: seq<State>, i: nat)
    requires ValidRun(run) && i < |run| && run[i].worker.WaitRestart?
    ensures var s := run[i];
            && (!s.worker.signalled ==> s.js == InterruptWait(true) || (s.stack != [] && s.stack[0].Root?))
            && (s.worker.signalled && s.lock.Free? ==>
                  Enabled(s, Restart)
                  && var t := Apply(s, Restart); t.worker == Run(0) && t.lock.ByWorker? && t.status.Clear?)
            && (forall p :: Enabled(s, Close(p)) && |s.stack| == 1 ==>
                  var t := Apply(s, Close(p)); t.lock.Free? && t.worker == WaitRestart(0, true))
  {
    RunKeepsInv(run, i);
  }

  // --------------------------------------------- beginning a transaction

  /** A worker that starts to wait gives the lock up, wakes JavaScript if that is blocked, and offers its
      transaction for a commit exactly if no block is open. */
  lemma WaitingAllowsCommit(run: seq<State>, i: nat, timed: bool, preferJs: bool)
    requires ValidRun(run) && i < |run| && Enabled(run[i], Wait(timed, preferJs))
    ensures var s, t := run[i], Apply(run[i], Wait(timed, preferJs));
            && t.worker == Waiting(s.worker.depth, timed, false) && t.lock.Free? && !JsBlocked(t.js)
            && (t.status.AllowCommit? <==> s.worker.depth == 0) && (s.worker.depth > 0 ==> t.status.Clear?)
  {
    RunKeepsInv(run, i);
  }

  /** The offer taken: a synchronous begin that gets the lock while a worker allows a commit opens nothing
      yet. It asks for the interruption, wakes the worker and gives the lock up. */
  lemma SynchronousBeginInterrupts(run: seq<State>, i: nat, writemap: bool, preferJs: bool)
    requires ValidRun(run) && i < |run| && Enabled(run[i], JsLock(writemap, preferJs))
    requires run[i].js.sync && run[i].status.AllowCommit?
    ensures var s, t := run[i], Apply(run[i], JsLock(writemap, preferJs));
            && s.worker.Waiting? && s.worker.depth == 0
            && t.js == InterruptWait(false) && t.stack == [] && t.lock.Free?
            && t.status.InterruptBatch? && t.worker == Waiting(0, s.worker.timed, true)
  {
    RunKeepsInv(run, i);
  }

  /** Any other begin has its transaction at once: nested in the worker's own if there is one and it can be
      aborted, else that one itself, and a root transaction if no worker has one open. */
  lemma BeginOpens(run: seq<State>, i: nat, writemap: bool, preferJs: bool)
    requires ValidRun(run) && i < |run| && Enabled(run[i], JsLock(writemap, preferJs))
    requires !(run[i].js.sync && run[i].status.AllowCommit?)
    ensures var s, t := run[i], Apply(run[i], JsLock(writemap, preferJs));
            && t.lock.ByJs? && t.js.Idle? && t.worker == s.worker && |t.stack| == 1
            && (!Live(s.worker) ==> t.stack[0].Root?)
            && (Live(s.worker) ==>
                  s.worker.Waiting? && t.stack[0] == if s.js.abortable && !writemap then Child else Borrowed)
            && (!s.worker.Absent? ==> t.status.UserHasLock?)
  {
    RunKeepsInv(run, i);
    hide Handshake, Waiters, Commits;
  }

  /** Once an interruption has been asked for, JavaScript has no transaction open until it gets a root one:
      it never runs inside the worker's. */
  lemma InterruptionGivesRoot(run: seq<State>, i: nat)
    requires ValidRun(run) && i + 1 < |run| && run[i].js.InterruptWait?
    ensures run[i].stack == []
    ensures run[i + 1].js.InterruptWait? || (run[i + 1].lock.ByJs? && run[i + 1].stack == [Root])
  {
    RunKeepsInv(run, i);
    hide StackShape, Handshake, CallbackInv, Waiters, Commits;
    assert Transition(run[i], run[i + 1]);
  }

  ghost predicate Extends(run: seq<State>, run': seq<State>) {
    |run| <= |run'| && run'[..|run|] == run
  }

  lemma Extend(run: seq<State>, step: Step) returns (run': seq<State>)
    requires ValidRun(run) && Enabled(run[|run| - 1], step)
    ensures ValidRun(run') && run' == run + [Apply(run[|run| - 1], step)]
  {
    hide Enabled, Apply;
    run' := run + [Apply(run[|run| - 1], step)];
    forall i | 0 <= i < |run'| - 1
      ensures Transition(run'[i], run'[i + 1])
    {
      if i < |run| - 1 {
        assert Transition(run[i], run[i + 1]);
      }
    }
  }

  /** From every state in which an interruption has been asked for the run can go on to the root transaction,
      with the worker's work so far committed, in one piece, and the worker parked. */
  lemma {:induction false} InterruptionLeadsToRoot(run: seq<State>) returns (run': seq<State>)
    requires ValidRun(run) && run[|run| - 1].js.InterruptWait?
    ensures ValidRun(run') && Extends(run, run')
    ensures var s, t := run[|run| - 1], run'[|run'| - 1];
            && t.lock.ByJs? && t.stack == [Root] && t.worker == WaitRestart(0, false)
            && t.commits == if s.worker.WaitRestart? then s.commits else s.commits + [0]
    decreases Distance(run[|run| - 1])
  {
    hide Inv, Apply, Enabled, Transition;
    var s := run[|run| - 1];
    InterruptionCompletes(run, |run| - 1);
    InterruptionCommits(run);
    var longer := Extend(run, Driver(s));
    if Driver(s).Resume? {
      return longer;
    }
    run' := InterruptionLeadsToRoot(longer);
    assert run'[..|run|] == run'[..|longer|][..|run|];
  }

  lemma InterruptionCommits(run: seq<State>)
    requires ValidRun(run) && run[|run| - 1].js.InterruptWait? && Enabled(run[|run| - 1], Driver(run[|run| - 1]))
    ensures var s := run[|run| - 1];
            var t := Apply(s, Driver(s));
            && (s.worker.WaitRestart? ==> t.worker.WaitRestart?)
            && t.commits == if t.worker.WaitRestart? && !s.worker.WaitRestart? then s.commits + [0] else s.commits
  {
    RunKeepsInv(run, |run| - 1);
  }

  /** Closing the last transaction frees the lock, clears the status and wakes the worker, if there is one. */
  lemma CloseGivesBack(run: seq<State>, i: nat, preferJs: bool)
    requires ValidRun(run) && i < |run| && Enabled(run[i], Close(preferJs)) && |run[i].stack| == 1
    ensures var s, t := run[i], Apply(run[i], Close(preferJs));
            && t.lock.Free? && t.stack == [] && !WorkerBlocked(t.worker)
            && (!s.worker.Absent? ==> t.status.Clear?)
  {
    RunKeepsInv(run, i);
  }

  /** A run with an interruption, state by state: a worker waiting between instructions commits for a
      synchronous transaction, waits until that is closed, goes on with a new one and commits that at the end. */
  function Example(k: nat): State {
    match k
    case 0 => INIT
    case 1 => INIT.(worker := Queued)
    case 2 => INIT.(worker := Run(0), lock := ByWorker)
    case 3 => INIT.(worker := Waiting(0, true, false), status := AllowCommit)
    case 4 => State(Free, AllowCommit, Waiting(0, true, false), Gone, false, WantLock(true, true, true), [], [])
    case 5 => State(Free, InterruptBatch, Waiting(0, true, true), Gone, false, InterruptWait(false), [], [])
    case 6 => State(ByWorker, InterruptBatch, Woken(0, true), Gone, false, InterruptWait(false), [], [])
    case 7 => State(ByWorker, RestartWorkerTxn, Interrupting(0), Gone, false, InterruptWait(false), [], [])
    case 8 => State(Free, RestartWorkerTxn, WaitRestart(0, false), Gone, false, InterruptWait(true), [], [0])
    case 9 => State(ByJs, RestartWorkerTxn, WaitRestart(0, false), Gone, false, Idle, [Root], [0])
    case 10 => INIT.(worker := WaitRestart(0, true), commits := [0])
    case 11 => INIT.(worker := Run(0), lock := ByWorker, commits := [0])
    case 12 => INIT.(worker := Ending(0), lock := ByWorker, commits := [0])
    case _ => INIT.(worker := Done, commits := [0, 0])
  }

  function ExampleStep(k: nat): Step {
    match k
    case 0 => StartWorker
    case 1 => WorkerLock
    case 2 => Wait(true, false)
    case 3 => Begin(true, true)
    case 4 => JsLock(false, false)
    case 5 => WorkerWake
    case 6 => Check(false)
    case 7 => CommitInterrupted(true)
    case 8 => Resume
    case 9 => Close(false)
    case 10 => Restart
    case 11 => End
    case _ => Finish
  }

  lemma ExampleMoves(k: nat)
    requires k < 13
    ensures Transition(Example(k), Example(k + 1))
  {
    assert Enabled(Example(k), ExampleStep(k)) && Example(k + 1) == Apply(Example(k), ExampleStep(k));
  }

  /** That run is one of the protocol's: interruptions do take place. */
  lemma SomeInterruption() returns (run: seq<State>)
    ensures ValidRun(run) && |run| == 14
    ensures run[3].worker == Waiting(0, true, false) && run[3].status.AllowCommit?
    ensures run[5].js.InterruptWait? && run[5].stack == [] && run[5].worker == Waiting(0, true, true)
    ensures run[9].stack == [Root] && run[9].worker == WaitRestart(0, false) && run[9].commits == [0]
    ensures run[11].stack == [] && run[11].worker == Run(0) && run[11].lock.ByWorker?
    ensures run[13].worker == Done && run[13].lock.Free? && run[13].commits == [0, 0]
  {
    hide Transition;
    run := seq(14, k requires 0 <= k < 14 => Example(k));
    forall i | 0 <= i < |run| - 1
      ensures Transition(run[i], run[i + 1])
    {
      ExampleMoves(i);
    }
  }

  /** A child transaction opened and closed leaves everything as it was. */
  lemma NestedCloses(run: seq<State>, i: nat, preferJs: bool)
    requires ValidRun(run) && i < |run| && Enabled(run[i], Nest)
    ensures var t := Apply(run[i], Nest);
            t.stack == run[i].stack + [Child] && Enabled(t, Close(preferJs)) && Apply(t, Close(preferJs)) == run[i]
  {
    var s, t := run[i], Apply(run[i], Nest);
    assert t.stack[..|t.stack| - 1] == s.stack;
  }

  /** The write transactions workers have open. */
  function WorkerTxns(s: State): nat {
    (if Live(s.worker) then 1 else 0) + (if s.previous.StillEnding? then 1 else 0)
  }

  /** Whatever a worker has open it commits: its transactions end one at a time, each with a commit, and
      there is no other commit. */
  lemma EveryTransactionIsCommitted(run: seq<State>, i: nat)
    requires ValidRun(run) && i + 1 < |run|
    ensures var s, t := run[i], run[i + 1];
            if WorkerTxns(t) < WorkerTxns(s) then
              WorkerTxns(t) == WorkerTxns(s) - 1 && t.commits == s.commits + [0]
            else t.commits == s.commits
  {
    RunKeepsInv(run, i);
    hide StackShape, Waiters, Commits;
    assert Transition(run[i], run[i + 1]);
  }

  /** JavaScript has been inside the worker's transaction at some point after `i`. */
  ghost predicate ProgressSince(run: seq<State>, i: nat, k: nat) {
    exists j :: i < j <= k && j < |run| && run[j].stack == [Progress]
  }

  lemma CallbacksStay(s: State, step: Step)
    requires Inv(s) && Enabled(s, step) && s.callbacks
    ensures Apply(s, step).callbacks || Apply(s, step).stack == [Progress]
  {
    hide Locking, StackShape, Handshake, Waiters, Commits;
  }

  lemma StepFrom(run: seq<State>, k: nat)
    requires ValidRun(run) && k + 1 < |run| && run[k].callbacks
    ensures run[k + 1].callbacks || run[k + 1].stack == [Progress]
  {
    hide Inv, Apply, Enabled;
    RunKeepsInv(run, k);
    assert Transition(run[k], run[k + 1]);
    var step :| Enabled(run[k], step) && run[k + 1] == Apply(run[k], step);
    CallbacksStay(run[k], step);
  }

  lemma {:induction false} CallbacksRemain(run: seq<State>, i: nat, k: nat)
    requires ValidRun(run) && i <= k < |run| && run[i].callbacks
    ensures run[k].callbacks || ProgressSince(run, i, k)
    decreases k
  {
    hide Transition;
    if i < k {
      CallbacksRemain(run, i, k - 1);
      if ProgressSince(run, i, k - 1) {
        var j :| i < j <= k - 1 && run[j].stack == [Progress];
        assert j <= k;
      } else {
        StepFrom(run, k - 1);
        assert run[k].stack == [Progress] ==> ProgressSince(run, i, k);
      }
    }
  }

  /** Until JavaScript has run inside the worker's transaction, an executed callback keeps that open. */
  lemma CallbacksComeFirst(run: seq<State>, i: nat, k: nat)
    requires ValidRun(run) && i < k < |run| && Enabled(run[i], UserCallback)
    requires run[i + 1] == Apply(run[i], UserCallback)
    ensures ProgressSince(run, i, k)
            || (run[k].callbacks && (Live(run[k].worker) || run[k].worker.WaitRestart?) && !run[k].worker.Ending?)
  {
    hide Transition, Locking, StackShape, Handshake, Waiters, Commits;
    CallbacksRemain(run, i + 1, k);
    RunKeepsInv(run, k);
  }

  /** `env.write(0)` wakes a waiting worker. */
  lemma PokeWakes(run: seq<State>, i: nat, preferJs: bool)
    requires ValidRun(run) && i < |run| && Enabled(run[i], Poke(preferJs))
    ensures Apply(run[i], Poke(preferJs)) == run[i].(worker := WakeWorker(run[i].worker))
    ensures !WorkerBlocked(Apply(run[i], Poke(preferJs)).worker)
  {
  }

  // ------------------------------------------------- strict-order callbacks

  /** The step that brings nearer the wake-up of a worker asleep without a timeout. */
  function CallbackDriver(s: State): Step {
    if s.stack == [Progress] then CallbacksDone(false)
    else if s.stack != [] then Close(false)
    else match s.js
      case WantLock(_, _, _) => JsLock(false, false)
      case ProgressLock => CallbacksLock
      case ProgressWait(_) => CallbacksResume
      case _ => Callbacks
  }

  function CallbackDistance(s: State): nat {
    if s.stack != [] then |s.stack|
    else match s.js
      case Idle => 4
      case WantLock(_, _, _) => 2
      case _ => 2
  }

  predicate AsleepUntimed(w: Worker) { w.Waiting? && !w.timed && !w.signalled }

  /** A worker waiting without a timeout for its callbacks is always woken: as long as it has not been,
      the next step of JavaScript on the way to running the callbacks, or to closing the transaction it
      has open, is enabled and brings the signal strictly nearer. */
  lemma UntimedWaiterIsWoken(run: seq<State>, i: nat)
    requires ValidRun(run) && i < |run| && AsleepUntimed(run[i].worker)
    ensures var s := run[i];
            && Enabled(s, CallbackDriver(s))
            && var t := Apply(s, CallbackDriver(s));
            if AsleepUntimed(t.worker) then CallbackDistance(t) < CallbackDistance(s)
            else t.worker == Waiting(s.worker.depth, false, true)
  {
    RunKeepsInv(run, i);
    var s := run[i];
    hide Handshake, Commits;
    if s.js.InterruptWait? {
      NotAskedTwice(s);
    }
  }

  /** With the lock in hand JavaScript runs the callbacks inside the worker's transaction, and they are no
      longer due; while the worker has none open it waits. When it is done, it wakes the worker. */
  lemma CallbacksAreRun(run: seq<State>, i: nat, step: Step)
    requires ValidRun(run) && i < |run| && Enabled(run[i], step)
    requires step.CallbacksLock? || step.CallbacksResume? || step.CallbacksDone?
    ensures var s, t := run[i], Apply(run[i], step);
            if step.CallbacksDone? then
              t.stack == [] && t.lock.Free? && t.worker.Waiting? && t.worker.signalled
            else if Live(s.worker) then
              s.worker.Waiting? && t.stack == [Progress] && t.lock.ByJs? && !t.callbacks
            else t.js == ProgressWait(false) && t.stack == [] && t.lock.Free? && t.callbacks
  {
    RunKeepsInv(run, i);
    hide Commits;
  }

  /** A thread that asked for an interruption has signalled: its worker is not asleep. */
  lemma NotAskedTwice(s: State)
    requires Handshake(s) && s.js.InterruptWait?
    ensures !AsleepUntimed(s.worker)
  {
  }
}
