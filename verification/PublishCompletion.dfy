/** Completion: once JavaScript is back in its event loop with no block open, everything it has written can
    be executed, its transaction ended and all its promises settled, without another operation. */
module PublishCompletion {
  import opened FlagWord
  import opened PublishProtocol
  import opened PublishInvariant
  import opened PublishTheorems
  import opened PublishProgress
  import opened PublishSettlement

  /** JavaScript has nothing left to publish. */
  ghost predicate Quiet(s: State) {
    !Publishing(s.prod.js) && s.prod.frames == [] && s.prod.pendingStart.None?
  }

  lemma QuietFacts(s: State)
    requires Inv(s) && Quiet(s)
    ensures |s.mem.words| == |s.mem.depths| == |s.mem.kinds| + 1 && s.mem.depths[|s.mem.kinds|] == 0
    ensures s.native.cursor <= |s.mem.kinds|
    ensures forall i :: 0 <= i < |s.mem.kinds| ==> s.mem.words[i].op.Published?
    ensures s.mem.words[|s.mem.kinds|].op.NoInstruction?
  {
    hide Shape, Delimiters, Statuses, HandOff, WorkerLocals, CommitMarks, History, Queue, Walked, Settled;
  }

  // ------------------------------------------------------- executing the rest

  lemma DriverStaysQuiet(s: State)
    requires InRange(s) && Enabled(s, Driver(s)) && Quiet(s)
    ensures Quiet(Apply(s, Driver(s))) && Apply(s, Driver(s)).mem.kinds == s.mem.kinds
  {
  }

  lemma Drains(run: seq<State>) returns (run': seq<State>)
    requires ValidRun(run) && Quiet(Last(run))
    ensures ValidRun(run') && Continues(run, run') && Quiet(Last(run'))
    ensures Last(run').mem.kinds == Last(run).mem.kinds && Last(run').native.cursor == |Last(run').mem.kinds|
    decreases var s := Last(run); if s.native.cursor < |s.mem.kinds| then |s.mem.kinds| - s.native.cursor else 0,
              Rank(Last(run)), JsRank(Last(run))
  {
    hide Inv, Enabled, Apply, Driver, InRange, Rank, JsRank, Transition, Quiet;
    var s := Last(run);
    RunKeepsInv(run, |run| - 1);
    QuietFacts(s);
    if s.native.cursor == |s.mem.kinds| {
      run' := run;
    } else {
      NeverStuck(run, |run| - 1);
      DriverStaysQuiet(s);
      var longer := ExtendBy(run, Driver(s));
      run' := Drains(longer);
      assert run'[..|run|] == run'[..|longer|][..|run|];
    }
  }

  // --------------------------------------------------- ending the transaction

  /** The next step towards the end of the transaction, at the free slot. */
  ghost function EndDriver(s: State, ok: bool): Step {
    var w := s.native.worker;
    match w
    case NoWorker => MarkCommitted(|s.mem.kinds|)
    case Loading(_, _, _) => Load
    case Loaded(_, _, _, _) => if s.native.finishedProgress then CasDelimiter else CasWaiting
    case Waiting(_, _) =>
      if s.native.finishedProgress then Wake
      else if s.prod.js.Ready? then ProgressCallback else JsDriver(s.prod.js)
    case Committing(_) => Commit(ok)
    case _ => StoreStatus
  }

  ghost function EndRank(s: State): nat {
    var later := if s.native.finishedProgress then 0 else 5;
    match s.native.worker
    case NoWorker => 0
    case Committing(_) => 1
    case Loaded(pos, _, _, flags) => if pos < |s.mem.words| && s.mem.words[pos] == flags then 2 + later else 4 + later
    case Loading(_, _, _) => 3 + later
    case Waiting(_, _) => if s.native.finishedProgress then 5 else 6
    case _ => 0
  }

  ghost predicate AtTheEnd(s: State) {
    Quiet(s) && s.native.cursor == |s.mem.kinds| && |s.mem.words| == |s.mem.kinds| + 1
  }

  lemma EndFacts(s: State)
    requires Inv(s) && Remembered(s) && AtTheEnd(s)
    ensures var w, here := s.native.worker, |s.mem.kinds|;
            && (Running(w) ==> w.pos == here && w.depth == 0 && !Executed(w))
            && (w.Loaded? ==> w.flags.op.NoInstruction?)
            && (w.NoWorker? ==> Ended(s.mem.words[here]) || here in s.native.lingering)
            && s.mem.words[here].op.NoInstruction? && s.prom.unwritten <= here
            && (s.prom.txnResolution.None? ==> s.prom.nextTxn.None?)
  {
    QuietFacts(s);
    hide Shape, PublishedWords, ProducerInv, Delimiters, Statuses, CommitMarks, History, Settled;
  }

  ghost predicate NearerTheEnd(s: State, t: State) {
    (t.mem.words != [] && Ended(t.mem.words[|t.mem.words| - 1]))
    || EndRank(t) < EndRank(s) || (EndRank(t) == EndRank(s) && JsRank(t) < JsRank(s))
  }

  lemma EndStep(s: State, ok: bool)
    requires InRange(s) && AtTheEnd(s) && !Ended(s.mem.words[|s.mem.kinds|])
    requires var w, here := s.native.worker, |s.mem.kinds|;
             && (Running(w) ==> w.pos == here && w.depth == 0 && !Executed(w))
             && (w.Loaded? ==> w.flags.op.NoInstruction?)
             && (w.NoWorker? ==> here in s.native.lingering)
             && s.prom.unwritten <= here && (s.prom.txnResolution.None? ==> s.prom.nextTxn.None?)
    ensures Enabled(s, EndDriver(s, ok))
    ensures var t := Apply(s, EndDriver(s, ok));
            AtTheEnd(t) && t.mem.kinds == s.mem.kinds && NearerTheEnd(s, t)
  {
    hide AtTheEnd, Quiet, NearerTheEnd, Enabled, Apply, SettleRange;
    if s.native.worker.Loaded? || s.native.worker.Loading? {
      LookingEnds(s, ok);
    } else {
      OtherwiseEnds(s, ok);
    }
  }

  lemma LookingEnds(s: State, ok: bool)
    requires InRange(s) && AtTheEnd(s) && (s.native.worker.Loaded? || s.native.worker.Loading?)
    requires var w := s.native.worker; w.pos == |s.mem.kinds| && w.depth == 0
                                       && (w.Loaded? ==> w.flags.op.NoInstruction?)
    ensures Enabled(s, EndDriver(s, ok))
    ensures var t := Apply(s, EndDriver(s, ok));
            AtTheEnd(t) && t.mem.kinds == s.mem.kinds && NearerTheEnd(s, t)
  {
  }

  lemma OtherwiseEnds(s: State, ok: bool)
    requires InRange(s) && AtTheEnd(s)
    requires s.native.worker.Waiting? || s.native.worker.Committing? || s.native.worker.NoWorker?
    requires s.native.worker.Waiting? ==> s.native.worker.pos == |s.mem.kinds| && s.native.worker.depth == 0
    requires s.native.worker.NoWorker? ==> |s.mem.kinds| in s.native.lingering
    requires s.prom.unwritten <= |s.mem.kinds| && (s.prom.txnResolution.None? ==> s.prom.nextTxn.None?)
    ensures Enabled(s, EndDriver(s, ok))
    ensures var t := Apply(s, EndDriver(s, ok));
            AtTheEnd(t) && t.mem.kinds == s.mem.kinds && NearerTheEnd(s, t)
  {
  }

  lemma EndsTheLast(run: seq<State>, ok: bool) returns (run': seq<State>)
    requires ValidRun(run) && AtTheEnd(Last(run))
    ensures ValidRun(run') && Continues(run, run') && AtTheEnd(Last(run'))
    ensures Last(run').mem.kinds == Last(run).mem.kinds && Ended(Last(run').mem.words[|Last(run').mem.kinds|])
    decreases EndRank(Last(run)), JsRank(Last(run))
  {
    hide Inv, Enabled, Apply, EndDriver, InRange, EndRank, JsRank, Transition, Quiet, Remembered;
    var s := Last(run);
    if Ended(s.mem.words[|s.mem.kinds|]) {
      return run;
    }
    RunKeepsInv(run, |run| - 1);
    RunRemembers(run, |run| - 1);
    InvInRange(s);
    EndFacts(s);
    EndStep(s, ok);
    var longer := ExtendBy(run, EndDriver(s, ok));
    if Ended(Last(longer).mem.words[|Last(longer).mem.kinds|]) {
      return longer;
    }
    run' := EndsTheLast(longer, ok);
    assert run'[..|run|] == run'[..|longer|][..|run|];
  }

  // --------------------------------------------------------------- completion

  /** From every reachable state in which JavaScript is free and no block is open, the run can go on, without
      another operation and however the commits still outstanding turn out, until every operation ever
      written has been executed and its promise settled by the outcome of a transaction behind it. */
  lemma EverythingSettles(run: seq<State>, ok: bool) returns (run': seq<State>)
    requires ValidRun(run) && Last(run).prod.js.Ready? && Last(run).prod.frames == []
    ensures ValidRun(run') && Continues(run, run') && Last(run').mem.kinds == Last(run).mem.kinds
    ensures var s := Last(run');
            forall j: nat :: j < |s.mem.kinds| && HasStatus(s.mem.kinds[j]) ==>
              j in s.native.log && exists e :: SettledAs(s, j, e)
  {
    hide Inv, Enabled, Apply, InRange, Transition, SettledAs;
    RunKeepsInv(run, |run| - 1);
    BackInTheLoop(Last(run));
    var drained := Drains(run);
    RunKeepsInv(drained, |drained| - 1);
    QuietFacts(Last(drained));
    var ended := EndsTheLast(drained, ok);
    var n := |Last(ended).mem.kinds|;
    run' := ended;
    if n > 0 && Last(ended).prom.uncommitted <= n - 1 {
      run' := SettlesPast(ended, n - 1, n, ok);
    }
    assert run'[..|run|] == run'[..|ended|][..|drained|][..|run|];
    var s := Last(run');
    forall j: nat | j < |s.mem.kinds| && HasStatus(s.mem.kinds[j])
      ensures j in s.native.log && exists e :: SettledAs(s, j, e)
    {
      SettledWasExecuted(run', j);
    }
  }

  lemma SettledWasExecuted(run: seq<State>, j: nat)
    requires ValidRun(run) && j < |Last(run).mem.kinds| && HasStatus(Last(run).mem.kinds[j])
    requires j < Last(run).prom.uncommitted
    ensures j in Last(run).native.log && exists e :: SettledAs(Last(run), j, e)
  {
    hide Inv, Enabled, Apply, InRange, Transition;
    var e := PassedIsSettled(run, |run| - 1, j);
    ExecutedOnceInOrder(run, |run| - 1);
    assert SettledAs(Last(run), j, e);
  }

  lemma BackInTheLoop(s: State)
    requires Inv(s) && s.prod.js.Ready? && s.prod.frames == []
    ensures Quiet(s)
  {
    hide Shape, PublishedWords, Consumer, Delimiters, Statuses, HandOff, WorkerLocals, CommitMarks, History, Queue,
         Walked, Settled;
  }
}
