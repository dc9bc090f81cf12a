/** A run in which a promise is resolved by the wrong transaction: two delimiters are
    waiting behind `txnResolution`, so the link to the first of them is overwritten. */
module PublishCounterexample {
  import opened Options
  import opened FlagWord
  import opened PublishProtocol
  import opened PublishTheorems

  const PUT := EMPTY.(op := Published(Operation))
  const FIRST := PUT.(delimiter := true, committed := true)
  const NEXT := PUT.(delimiter := true)

  ghost function DoneFirst(): Word { FIRST.(finished := true) }
  ghost function DoneNext(): Word { NEXT.(finished := true) }

  ghost const START := Init()
  ghost const PUT0 := State(Stream([FIRST, EMPTY], [Operation], [0, 0]),
                            Producer(Ready, [], None, None),
                            START.prom.(isTxn := {0}, txnResolution := Some(0)),
                            START.native.(spawned := [0]))
  ghost const RAN0 := PUT0.(mem := PUT0.mem.(words := [DoneFirst(), EMPTY]),
                            native := Native([], Loading(1, 0, false), true, map[], 0, 1, [0], []))
  ghost const ENDED1 := RAN0.(mem := RAN0.mem.(words := [DoneFirst(), DELIMITER_WORD]),
                              native := Native([], NoWorker, true, map[1 := false], 0, 1, [0], [1]))
  ghost const PUT1 := State(Stream([DoneFirst(), NEXT, EMPTY], [Operation, Operation], [0, 0, 0]),
                            Producer(Ready, [], None, None),
                            START.prom.(isTxn := {0, 1}, txnResolution := Some(0), nextTxn := Some(1)),
                            ENDED1.native.(spawned := [1]))
  ghost const AT1 := PUT1.(native := PUT1.native.(spawned := [], worker := Loaded(1, 0, true, NEXT)))
  ghost const RAN1 := PUT1.(mem := PUT1.mem.(words := [DoneFirst(), DoneNext(), EMPTY]),
                            native := Native([], Loading(2, 0, false), true, map[1 := false], 0, 2, [0, 1], [1]))
  ghost const ENDED2 := RAN1.(mem := RAN1.mem.(words := [DoneFirst(), DoneNext(), DELIMITER_WORD]),
                              native := Native([], NoWorker, true, map[1 := false, 2 := true], 0, 2, [0, 1], [1, 2]))
  ghost const PUT2 := State(Stream([DoneFirst(), DoneNext(), NEXT, EMPTY],
                                   [Operation, Operation, Operation], [0, 0, 0, 0]),
                            Producer(Ready, [], None, Some(2)),
                            START.prom.(isTxn := {0, 1, 2}, txnResolution := Some(0), nextTxn := Some(2), lost := true),
                            ENDED2.native)
  ghost const MARKED := PUT2.(mem := PUT2.mem.(words := [DoneFirst(), DoneNext().(hadError := true),
                                                         NEXT.(committed := true), EMPTY]),
                              native := PUT2.native.(lingering := map[], completions := 2))
  ghost const WALKED := MARKED.(prod := MARKED.prod.(js := CheckTxn),
                                prom := MARKED.prom.(flag := map[0 := DoneFirst(), 1 := DoneNext().(hadError := true)],
                                                     unwritten := 2))

  lemma RunPut0() returns (run: seq<State>)
    ensures ValidRun(run) && Last(run) == PUT0
  {
    run := [START];
    run := Extend(run, Allot(Operation, false));
    run := Extend(run, PublishOr);
    run := Extend(run, StartWriting);
  }

  lemma RunFirst(run0: seq<State>) returns (run: seq<State>)
    requires ValidRun(run0) && Last(run0) == PUT0
    ensures ValidRun(run) && Last(run) == RAN0
  {
    run := Extend(run0, Acquire);
    run := Extend(run, Load);
    run := Extend(run, Execute(false, false));
    run := Extend(run, StoreStatus);
  }

  lemma EndFirst(run0: seq<State>) returns (run: seq<State>)
    requires ValidRun(run0) && Last(run0) == RAN0
    ensures ValidRun(run) && Last(run) == ENDED1
  {
    run := Extend(run0, Load);
    run := Extend(run, CasDelimiter);
    run := Extend(run, Commit(false));
  }

  lemma RunPut1(run0: seq<State>) returns (run: seq<State>)
    requires ValidRun(run0) && Last(run0) == ENDED1
    ensures ValidRun(run) && Last(run) == PUT1
  {
    run := Extend(run0, Allot(Operation, false));
    run := Extend(run, PublishOr);
    run := Extend(run, StartWriting);
  }

  lemma LoadSecond(run0: seq<State>) returns (run: seq<State>)
    requires ValidRun(run0) && Last(run0) == PUT1
    ensures ValidRun(run) && Last(run) == AT1
  {
    run := Extend(run0, Acquire);
    run := Extend(run, Load);
  }

  lemma RunSecond(run0: seq<State>) returns (run: seq<State>)
    requires ValidRun(run0) && Last(run0) == AT1
    ensures ValidRun(run) && Last(run) == RAN1
  {
    run := Extend(run0, Execute(false, false));
    run := Extend(run, StoreStatus);
  }

  ghost const AT2 := RAN1.(native := RAN1.native.(worker := Loaded(2, 0, false, EMPTY)))
  ghost const CUT2 := RAN1.(mem := RAN1.mem.(words := [DoneFirst(), DoneNext(), DELIMITER_WORD]),
                            native := RAN1.native.(worker := Committing(2)))

  lemma LoadThird(run0: seq<State>) returns (run: seq<State>)
    requires ValidRun(run0) && Last(run0) == RAN1
    ensures ValidRun(run) && Last(run) == AT2
  {
    run := Extend(run0, Load);
  }

  lemma CutSecond(run0: seq<State>) returns (run: seq<State>)
    requires ValidRun(run0) && Last(run0) == AT2
    ensures ValidRun(run) && Last(run) == CUT2
  {
    run := Extend(run0, CasDelimiter);
  }

  lemma EndSecond(run0: seq<State>) returns (run: seq<State>)
    requires ValidRun(run0) && Last(run0) == RAN1
    ensures ValidRun(run) && Last(run) == ENDED2
  {
    run := LoadThird(run0);
    run := CutSecond(run);
    run := Extend(run, Commit(true));
  }

  lemma RunPut2(run0: seq<State>) returns (run: seq<State>)
    requires ValidRun(run0) && Last(run0) == ENDED2
    ensures ValidRun(run) && Last(run) == PUT2
  {
    run := Extend(run0, Allot(Operation, false));
    run := Extend(run, PublishOr);
  }

  lemma MarkBoth(run0: seq<State>) returns (run: seq<State>)
    requires ValidRun(run0) && Last(run0) == PUT2
    ensures ValidRun(run) && Last(run) == MARKED
  {
    run := Extend(run0, MarkCommitted(1));
    run := Extend(run, MarkCommitted(2));
  }

  lemma WalkBoth(run0: seq<State>) returns (run: seq<State>)
    requires ValidRun(run0) && Last(run0) == MARKED
    ensures ValidRun(run) && Last(run) == WALKED
  {
    run := Extend(run0, BeginResolve);
    run := Extend(run, Walk);
    run := Extend(run, Walk);
    run := Extend(run, Walk);
  }

  /** Three outstanding delimiters: the transaction holding instruction 0 failed to commit at
      delimiter 1, yet its promise is resolved with true by the commit at delimiter 2. */
  lemma OverwrittenDelimiter() returns (run: seq<State>)
    ensures ValidRun(run)
    ensures var s := Last(run);
            && s.prom.lost
            && |s.prom.settled| > 0 && s.prom.settled[0] == Settlement(0, Resolved(true), 2)
            && |s.mem.words| == 4 && s.mem.words[1].delimiter && s.mem.words[1].hadError
  {
    run := RunPut0();
    run := RunFirst(run);
    run := EndFirst(run);
    run := RunPut1(run);
    run := LoadSecond(run);
    run := RunSecond(run);
    run := EndSecond(run);
    run := RunPut2(run);
    run := MarkBoth(run);
    run := WalkBoth(run);
    run := Extend(run, SettleTxn);
    run := Extend(run, SettleTxn);
    var q := WALKED.prom;
    assert SettleRange(WALKED.mem.kinds, q.flag, 0, 0, 2, true) == [];
    assert SettleRange(WALKED.mem.kinds, q.flag, 0, 1, 2, true) == [Settlement(0, Resolved(true), 2)];
    assert SettleRange(WALKED.mem.kinds, q.flag, 0, 2, 2, true)[0] == Settlement(0, Resolved(true), 2);
  }
}
