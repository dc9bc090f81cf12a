/** Progress of the write stream: a published instruction under the cursor is always being brought
    nearer to its execution, whatever the JavaScript thread is in the middle of. */
module PublishProgress {
  import opened Options
  import opened FlagWord
  import opened PublishProtocol
  import opened PublishInvariant
  import opened PublishAllocation
  import opened PublishPublication
  import opened PublishWorker
  import opened PublishTheorems

  /** A published instruction is waiting under the cursor, or being executed there. */
  ghost predicate Due(s: State) {
    s.native.cursor < |s.mem.words| && s.mem.words[s.native.cursor].op.Published?
  }

  /** How far the worker side is from moving past the instruction under the cursor. */
  ghost function Rank(s: State): nat {
    match s.native.worker
    case Committing(_) => 11
    case NoWorker => if s.prod.startAddress.Some? then 10 else 9
    case Waiting(_, _) => 8
    case Loaded(_, _, _, flags) => if flags.op.NoInstruction? then 7 else 5
    case Loading(_, _, _) => 6
    case AwaitCallbacks(_, _, _) => if s.native.finishedProgress then 3 else 4
    case Finishing(_, _, _, _) => 2
    case Merging(_, _, _, _) => 1
  }

  /** How far the JavaScript thread is from the end of what it is doing. */
  ghost function JsRank(s: State): nat {
    var js, behind := s.prod.js, if s.prom.unwritten < |s.mem.kinds| then |s.mem.kinds| - s.prom.unwritten else 0;
    match js
    case Ready => 0
    case OrFlags(_, start) => if start.Some? then 2 else 1
    case StoreFlags(_, start, _) => if start.Some? then 2 else 1
    case ReadStatus(_, start) => if start.Some? then 3 else 2
    case CheckTxn =>
      1 + (if s.prom.txnResolution.Some? then 1 else 0) + (if s.prom.nextTxn.Some? then 1 else 0)
    case WalkFinished => behind + 5
    case CheckDelimiter => |s.mem.kinds| + 7
  }

  /** The next access of a JavaScript thread that is in the middle of something. */
  ghost function JsDriver(js: Js): Step {
    match js
    case Ready => BeginResolve
    case OrFlags(_, _) => PublishOr
    case ReadStatus(_, _) => PublishRead
    case StoreFlags(_, _, _) => PublishStore
    case CheckDelimiter => ReadDelimiter
    case WalkFinished => Walk
    case CheckTxn => SettleTxn
  }

  /** The next step towards executing the instruction under the cursor. Where that is up to JavaScript,
      it first finishes what it is doing. */
  ghost function Driver(s: State): Step {
    var w := s.native.worker;
    match w
    case NoWorker =>
      if s.prod.startAddress.None? then Acquire else if s.prod.js.Ready? then StartWriting else JsDriver(s.prod.js)
    case Loading(_, _, _) => Load
    case Loaded(_, depth, _, flags) =>
      if flags.op.NoInstruction? then
        if !s.native.finishedProgress || depth != 0 then CasWaiting else CasDelimiter
      else if HasStatus(flags.op.kind) then Execute(false, false) else Structural
    case AwaitCallbacks(_, _, _) =>
      if s.native.finishedProgress then CallbacksDone
      else if s.prod.js.Ready? then ProgressCallback else JsDriver(s.prod.js)
    case Finishing(_, _, _, _) => StoreStatus
    case Merging(_, _, _, _) => MergeStatus
    case Waiting(_, _) => Wake
    case Committing(_) => Commit(true)
  }

  /** Past the instruction, or nearer to it, or with JavaScript nearer to being free for it. */
  ghost predicate Nearer(s: State, t: State) {
    || t.native.cursor > s.native.cursor
    || (t.native.cursor == s.native.cursor && (Rank(t) < Rank(s) || (Rank(t) == Rank(s) && JsRank(t) < JsRank(s))))
  }

  lemma JsStepNearer(s: State)
    requires Inv(s) && InRange(s) && Due(s) && !s.prod.js.Ready? && Driver(s) == JsDriver(s.prod.js)
    ensures Enabled(s, Driver(s)) && Nearer(s, Apply(s, Driver(s)))
  {
    hide Shape, ProducerInv, PublishedWords, Consumer, Delimiters, Statuses, HandOff, WorkerLocals, CommitMarks,
         History, Queue, Walked, Settled;
    NotTheDueOne(s);
  }

  /** What is being published is never the instruction already under the cursor. */
  lemma NotTheDueOne(s: State)
    requires Inv(s) && InRange(s) && Due(s)
    ensures Publishing(s.prod.js) ==> s.prod.js.at != s.native.cursor && !s.mem.words[s.prod.js.at].delimiter
    ensures s.prod.js.StoreFlags? ==> !s.prod.js.seen.delimiter
    ensures s.prom.unwritten <= |s.mem.kinds|
    ensures s.prom.txnResolution.None? ==> s.prom.nextTxn.None?
  {
    hide Shape, History, Settled;
    if Publishing(s.prod.js) {
      PublishFacts(s.mem, s.prod, s.prom, s.native);
    }
  }

  lemma WorkerStepNearer(s: State)
    requires Inv(s) && InRange(s) && Due(s) && (s.prod.js.Ready? || Driver(s) != JsDriver(s.prod.js))
    ensures Enabled(s, Driver(s)) && Nearer(s, Apply(s, Driver(s)))
  {
    DueFacts(s);
    hide Inv, Nearer;
    var w := s.native.worker;
    if w.NoWorker? || w.Committing? || w.Waiting? {
      ArrivingNearer(s);
    } else if w.Loading? || w.Loaded? {
      LookingNearer(s);
    } else {
      ExecutingNearer(s);
    }
  }

  lemma ArrivingNearer(s: State)
    requires InRange(s) && Due(s) && (s.prod.js.Ready? || Driver(s) != JsDriver(s.prod.js))
    requires s.native.worker.NoWorker? || s.native.worker.Committing? || s.native.worker.Waiting?
    requires s.native.worker.NoWorker? && s.prod.startAddress.None? ==> s.native.spawned == [s.native.cursor]
    requires s.native.worker.Waiting? ==> s.native.worker.pos == s.native.cursor
    ensures Enabled(s, Driver(s)) && Nearer(s, Apply(s, Driver(s)))
  {
  }

  lemma LookingNearer(s: State)
    requires InRange(s) && Due(s) && (s.native.worker.Loading? || s.native.worker.Loaded?)
    requires s.native.worker.pos == s.native.cursor
    requires s.native.worker.Loaded? && s.native.worker.flags.op.NoInstruction? ==>
               s.mem.words[s.native.cursor] != s.native.worker.flags
    ensures Enabled(s, Driver(s)) && Nearer(s, Apply(s, Driver(s)))
  {
  }

  lemma ExecutingNearer(s: State)
    requires InRange(s) && Due(s) && (s.prod.js.Ready? || Driver(s) != JsDriver(s.prod.js))
    requires s.native.worker.AwaitCallbacks? || s.native.worker.Finishing? || s.native.worker.Merging?
    requires s.native.worker.pos == s.native.cursor
    ensures Enabled(s, Driver(s)) && Nearer(s, Apply(s, Driver(s)))
  {
  }

  lemma DueFacts(s: State)
    requires Inv(s) && Due(s)
    ensures var w, c := s.native.worker, s.native.cursor;
            && (w.NoWorker? && s.prod.startAddress.None? ==> s.native.spawned == [c])
            && (Running(w) ==> w.pos == c)
            && (w.Loaded? && w.flags.op.NoInstruction? ==> s.mem.words[c] != w.flags)
            && (w.Committing? ==> s.prod.startAddress.Some? || s.native.spawned == [c])
            && (w.NoWorker? && s.prod.startAddress.Some? ==> s.native.spawned == [])
  {
    hide Shape, ProducerInv, PublishedWords, Delimiters, Statuses, CommitMarks, History, Queue, Walked, Settled;
  }

  /** In every reachable state with a published instruction under the cursor there is an enabled step of
      the worker, or of a JavaScript thread the worker depends on, and it brings the execution nearer by
      a measure that cannot sink for ever: no wake-up is lost, whatever JavaScript is doing. */
  lemma NeverStuck(run: seq<State>, i: nat)
    requires ValidRun(run) && i < |run| && Due(run[i])
    ensures InRange(run[i]) && Enabled(run[i], Driver(run[i]))
    ensures Nearer(run[i], Apply(run[i], Driver(run[i])))
  {
    hide Inv, Enabled, Apply, Nearer, Driver, Due;
    var s := run[i];
    RunKeepsInv(run, i);
    InvInRange(s);
    if !s.prod.js.Ready? && Driver(s) == JsDriver(s.prod.js) {
      JsStepNearer(s);
    } else {
      WorkerStepNearer(s);
    }
  }

  ghost predicate NoFarther(s: State, t: State) {
    t.native.cursor > s.native.cursor || (t.native.cursor == s.native.cursor && Rank(t) <= Rank(s))
  }

  /** Nobody can undo the worker's progress: no step of anyone raises the rank. */
  lemma RankNeverRises(s: State, step: Step)
    requires Inv(s) && InRange(s) && Due(s) && Enabled(s, step)
    ensures NoFarther(s, Apply(s, step))
  {
    hide Inv, NoFarther, Apply, Enabled, Due;
    DueFacts(s);
    NotTheDueOne(s);
    LoadedFromDue(s);
    match step
    case Allot(_, _) | BeginEventTurn(_) | BeginBlock(_) | EndBlock | EndEventTurn | PublishStartEarly
      | PublishOr | PublishRead | PublishStore | StartWriting => ProducerNoFarther(s, step);
    case WorkerCallback | ProgressCallback | ReadDelimiter | BeginResolve | Walk | SettleTxn =>
      PromiseNoFarther(s, step);
    case Acquire | Load | CasWaiting | CasDelimiter | Wake | Interrupt => ArrivingNoFarther(s, step);
    case _ => ExecutingNoFarther(s, step);
  }

  lemma ProducerNoFarther(s: State, step: Step)
    requires InRange(s) && Enabled(s, step)
    requires step.Allot? || step.BeginEventTurn? || step.BeginBlock? || step.EndBlock? || step.EndEventTurn?
             || step.PublishStartEarly? || step.PublishOr? || step.PublishRead? || step.PublishStore?
             || step.StartWriting?
    requires Publishing(s.prod.js) ==> !s.mem.words[s.prod.js.at].delimiter
    requires s.prod.js.StoreFlags? ==> !s.prod.js.seen.delimiter
    ensures NoFarther(s, Apply(s, step))
  {
  }

  lemma PromiseNoFarther(s: State, step: Step)
    requires InRange(s) && Enabled(s, step)
    requires step.WorkerCallback? || step.ProgressCallback? || step.ReadDelimiter? || step.BeginResolve?
             || step.Walk? || step.SettleTxn?
    ensures NoFarther(s, Apply(s, step))
  {
  }

  lemma ArrivingNoFarther(s: State, step: Step)
    requires InRange(s) && Enabled(s, step)
    requires step.Acquire? || step.Load? || step.CasWaiting? || step.CasDelimiter? || step.Wake? || step.Interrupt?
    requires Running(s.native.worker) ==> s.native.worker.pos == s.native.cursor
    requires s.native.spawned != [] ==> s.native.spawned[0] == s.native.cursor
    requires s.native.worker.Loading? ==> s.mem.words[s.native.worker.pos].op.Published?
    requires s.native.worker.Loaded? && s.native.worker.flags.op.NoInstruction? ==>
               s.mem.words[s.native.worker.pos] != s.native.worker.flags
    ensures NoFarther(s, Apply(s, step))
  {
  }

  lemma ExecutingNoFarther(s: State, step: Step)
    requires InRange(s) && Enabled(s, step)
    requires step.Structural? || step.Execute? || step.CallbacksDone? || step.StoreStatus? || step.MergeStatus?
             || step.Commit? || step.MarkCommitted?
    requires Running(s.native.worker) ==> s.native.worker.pos == s.native.cursor
    ensures NoFarther(s, Apply(s, step))
  {
  }

  lemma LoadedFromDue(s: State)
    requires Inv(s) && InRange(s) && Due(s)
    ensures s.native.worker.Loading? ==> s.mem.words[s.native.worker.pos].op.Published?
    ensures s.native.spawned != [] ==> s.native.spawned[0] == s.native.cursor
  {
    hide Shape, ProducerInv, PublishedWords, Delimiters, Statuses, CommitMarks, History, Queue, Walked, Settled;
  }

  // ------------------------------------------------------------ continuations

  ghost predicate Continues(run: seq<State>, run': seq<State>) {
    |run| <= |run'| && run'[..|run|] == run
  }

  /** From every reachable state with a published instruction under the cursor the run can go on, by the
      driving steps alone, until the cursor has moved past it. */
  lemma {:induction false} MovesPast(run: seq<State>) returns (run': seq<State>)
    requires ValidRun(run) && Due(Last(run))
    ensures ValidRun(run') && Continues(run, run') && Last(run').native.cursor > Last(run).native.cursor
    decreases Rank(Last(run)), JsRank(Last(run))
  {
    hide Inv, Enabled, Apply, Driver, InRange, Rank, JsRank, Transition;
    var s := Last(run);
    NeverStuck(run, |run| - 1);
    var t := Apply(s, Driver(s));
    var longer := ExtendBy(run, Driver(s));
    if t.native.cursor > s.native.cursor {
      return longer;
    }
    StaysDue(run, longer);
    run' := MovesPast(longer);
    assert run'[..|run|] == run'[..|longer|][..|run|];
  }

  lemma ExtendBy(run: seq<State>, step: Step) returns (run': seq<State>)
    requires ValidRun(run) && InRange(Last(run)) && Enabled(Last(run), step)
    ensures ValidRun(run') && |run'| == |run| + 1 && Continues(run, run') && Last(run') == Apply(Last(run), step)
  {
    hide Enabled, Apply, InRange;
    run' := Extend(run, step);
  }

  lemma StaysDue(run: seq<State>, run': seq<State>)
    requires ValidRun(run') && run != [] && Continues(run, run') && Due(Last(run))
    requires Last(run').native.cursor == Last(run).native.cursor
    ensures Due(Last(run'))
  {
    hide Transition, Inv;
    BitsSurvive(run', |run| - 1, |run'| - 1, Last(run).native.cursor);
    assert run'[|run| - 1] == run'[..|run|][|run| - 1];
  }

  /** Everything published is executed: any reachable state whose first `n` words are published has a
      continuation in which each operation among them has been executed and is marked finished. */
  lemma {:induction false} PublishedIsExecuted(run: seq<State>, n: nat) returns (run': seq<State>)
    requires ValidRun(run) && n <= |Last(run).mem.words|
    requires forall j :: 0 <= j < n ==> Last(run).mem.words[j].op.Published?
    ensures ValidRun(run') && Continues(run, run')
    ensures var s := Last(run');
            && n <= |s.mem.kinds| <= |s.mem.words|
            && (forall j :: 0 <= j < n ==> s.mem.words[j].op == Last(run).mem.words[j].op == Published(s.mem.kinds[j]))
            && (forall j: nat :: j < n && HasStatus(s.mem.kinds[j]) ==> j in s.native.log && s.mem.words[j].finished)
    decreases if Last(run).native.cursor < n then n - Last(run).native.cursor else 0
  {
    hide Inv, Enabled, Apply, InRange, Transition, Driver, Rank, JsRank;
    if Last(run).native.cursor >= n {
      run' := run;
      PastIsExecuted(run, n);
    } else {
      var longer := MovesPast(run);
      StillPublished(run, longer, n);
      run' := PublishedIsExecuted(longer, n);
      assert run'[..|run|] == run'[..|longer|][..|run|];
    }
  }

  lemma StillPublished(run: seq<State>, run': seq<State>, n: nat)
    requires ValidRun(run') && run != [] && Continues(run, run') && n <= |Last(run).mem.words|
    requires forall j :: 0 <= j < n ==> Last(run).mem.words[j].op.Published?
    ensures n <= |Last(run').mem.words|
    ensures forall j :: 0 <= j < n ==> Last(run').mem.words[j].op == Last(run).mem.words[j].op
  {
    hide Transition, Inv;
    assert run'[|run| - 1] == run'[..|run|][|run| - 1];
    forall j | 0 <= j < n
      ensures j < |Last(run').mem.words| && Last(run').mem.words[j].op == Last(run).mem.words[j].op
    {
      BitsSurvive(run', |run| - 1, |run'| - 1, j);
    }
    if n > 0 {
      BitsSurvive(run', |run| - 1, |run'| - 1, n - 1);
    }
  }

  lemma PastIsExecuted(run: seq<State>, n: nat)
    requires ValidRun(run) && n <= Last(run).native.cursor
    ensures var s := Last(run);
            && n <= |s.mem.kinds| <= |s.mem.words|
            && (forall j :: 0 <= j < n ==> s.mem.words[j].op == Published(s.mem.kinds[j]))
            && (forall j: nat :: j < n && HasStatus(s.mem.kinds[j]) ==> j in s.native.log && s.mem.words[j].finished)
  {
    RunKeepsInv(run, |run| - 1);
    LogOf(Last(run));
    ExecutedOnceInOrder(run, |run| - 1);
    hide Inv;
  }
}
