/** Exactly when promises are settled by their own transaction: as long as no pending link to a
    delimiter has been overwritten, and never again once one has. */
module PublishAttribution {
  import opened Options
  import opened FlagWord
  import opened PublishProtocol
  import opened PublishInvariant
  import opened PublishAllocation
  import opened PublishPublication
  import opened PublishWorker
  import opened PublishTheorems

  /** Some promise was settled by a delimiter although another one stands in between. */
  ghost predicate Misattributed(words: seq<Word>, settled: seq<Settlement>) {
    exists k: nat, j: nat ::
      k < |settled| && settled[k].index < j < settled[k].delim && j < |words| && words[j].delimiter
  }

  /** A delimiter the list of transactions will pass over. */
  ghost predicate Skipped(words: seq<Word>, q: Promises, b: nat) {
    && b < |words| && words[b].delimiter && q.txnResolution.Some?
    && ((q.nextTxn.Some? && q.txnResolution.value < b < q.nextTxn.value)
        || (0 <= q.uncommitted < b < q.txnResolution.value))
  }

  ghost predicate LostShows(words: seq<Word>, q: Promises) {
    q.lost ==> Misattributed(words, q.settled) || exists b: nat :: Skipped(words, q, b)
  }

  /** The same list of transactions. */
  ghost predicate SameQueue(q: Promises, q': Promises) {
    && q'.txnResolution == q.txnResolution && q'.nextTxn == q.nextTxn && q'.uncommitted == q.uncommitted
    && q'.settled == q.settled && q'.lost == q.lost
  }

  lemma MisattributedStays(words: seq<Word>, words': seq<Word>, settled: seq<Settlement>, more: seq<Settlement>)
    requires KeepsAll(words, words') && Misattributed(words, settled)
    ensures Misattributed(words', settled + more)
  {
    var k: nat, j: nat :| k < |settled| && settled[k].index < j < settled[k].delim && j < |words| && words[j].delimiter;
    assert (settled + more)[k] == settled[k] && words'[j].delimiter;
  }

  lemma SameQueueShows(words: seq<Word>, words': seq<Word>, q: Promises, q': Promises)
    requires LostShows(words, q) && KeepsAll(words, words') && SameQueue(q, q')
    ensures LostShows(words', q')
  {
    if q.lost {
      if Misattributed(words, q.settled) {
        MisattributedStays(words, words', q.settled, []);
        assert q.settled + [] == q.settled;
      } else {
        var b: nat :| Skipped(words, q, b);
        assert Skipped(words', q', b);
      }
    }
  }

  lemma QueueingShows(words: seq<Word>, words': seq<Word>, q: Promises, cursor: nat)
    requires LostShows(words, q) && KeepsAll(words, words') && Queue(words, q, cursor)
    ensures LostShows(words', QueueCommit(q, cursor))
  {
    var q' := QueueCommit(q, cursor);
    if q'.lost && cursor !in q.isTxn && q.txnResolution.Some? {
      if q.lost && Misattributed(words, q.settled) {
        MisattributedStays(words, words', q.settled, []);
        assert q.settled + [] == q.settled;
      } else if q.lost {
        var b: nat :| Skipped(words, q, b);
        assert Skipped(words', q', b);
      } else {
        assert Skipped(words', q', q.nextTxn.value);
      }
    } else {
      SameQueueShows(words, words', q, q.(isTxn := q'.isTxn));
    }
  }

  /** The first promise of a settled range is that of the word the previous range ended at. */
  lemma {:induction false} SettleRangeBegins(kinds: seq<Kind>, flag: map<nat, Word>, lo: nat, hi: nat, d: nat, ok: bool)
    requires lo < hi <= |kinds| && HasStatus(kinds[lo])
    ensures var e := SettleRange(kinds, flag, lo, hi, d, ok); |e| > 0 && e[0].index == lo && e[0].delim == d
  {
    if hi > lo + 1 {
      SettleRangeBegins(kinds, flag, lo, hi - 1, d, ok);
    } else {
      assert SettleRange(kinds, flag, lo, lo, d, ok) == [];
    }
  }

  lemma SettlingShows(words: seq<Word>, kinds: seq<Kind>, depths: seq<int>, q: Promises, cursor: nat, ok: bool)
    requires LostShows(words, q) && Queue(words, q, cursor) && Delimiters(words, kinds, depths, cursor)
    requires q.txnResolution.Some? && cursor <= |kinds|
    ensures var d := q.txnResolution.value;
            d <= |kinds|
                && LostShows(words, q.(settled := q.settled + SettleRange(kinds, q.flag, q.uncommitted, d, d, ok),
                                               uncommitted := d, txnResolution := q.nextTxn, nextTxn := None))
  {
    var d := q.txnResolution.value;
    var e := SettleRange(kinds, q.flag, q.uncommitted, d, d, ok);
    var q' := q.(settled := q.settled + e, uncommitted := d, txnResolution := q.nextTxn, nextTxn := None);
    if q.lost {
      if Misattributed(words, q.settled) {
        MisattributedStays(words, words, q.settled, e);
      } else {
        var b: nat :| Skipped(words, q, b);
        if q.nextTxn.Some? && d < b < q.nextTxn.value {
          assert Skipped(words, q', b);
        } else {
          SettleRangeBegins(kinds, q.flag, q.uncommitted, d, d, ok);
          assert (q.settled + e)[|q.settled|] == e[0];
        }
      }
    }
  }

  lemma StepShows(s: State, step: Step)
    requires Inv(s) && InRange(s) && Enabled(s, step) && LostShows(s.mem.words, s.prom)
    ensures LostShows(Apply(s, step).mem.words, Apply(s, step).prom)
  {
    hide Inv, Enabled, Apply, KeepsAll, LostShows, SameQueue;
    StepKeepsBits(s, step);
    if step.PublishOr? || step.PublishStore? {
      PublishShows(s, step);
    } else if step.ReadDelimiter? {
      ReadStep(s, step);
      ReadShows(s);
    } else if step.SettleTxn? {
      SettleStep(s, step);
      SettleShows(s);
    } else {
      QueueUntouched(s, step);
      SameQueueShows(s.mem.words, Apply(s, step).mem.words, s.prom, Apply(s, step).prom);
    }
  }

  lemma ReadStep(s: State, step: Step)
    requires InRange(s) && Enabled(s, step) && step.ReadDelimiter?
    ensures s.prod.js.CheckDelimiter?
    ensures Apply(s, step).mem == s.mem && Apply(s, step).prom == DoReadDelimiter(s).prom
  {
  }

  lemma SettleStep(s: State, step: Step)
    requires InRange(s) && Enabled(s, step) && step.SettleTxn?
    ensures s.prod.js.CheckTxn?
    ensures Apply(s, step).mem == s.mem && Apply(s, step).prom == DoSettleTxn(s).prom
  {
  }

  lemma QueueUntouched(s: State, step: Step)
    requires InRange(s) && Enabled(s, step)
    requires !step.PublishOr? && !step.PublishStore? && !step.ReadDelimiter? && !step.SettleTxn?
    ensures SameQueue(s.prom, Apply(s, step).prom)
  {
  }

  lemma PublishShows(s: State, step: Step)
    requires Inv(s) && InRange(s) && Enabled(s, step) && LostShows(s.mem.words, s.prom)
    requires step.PublishOr? || step.PublishStore?
    requires KeepsAll(s.mem.words, Apply(s, step).mem.words)
    ensures LostShows(Apply(s, step).mem.words, Apply(s, step).prom)
  {
    hide Shape, ProducerInv, PublishedWords, Consumer, Delimiters, Statuses, HandOff, WorkerLocals,
         CommitMarks, History, Queue, Walked, Settled, LostShows, KeepsAll, QueueCommit;
    PublishFacts(s.mem, s.prod, s.prom, s.native);
    var words' := Apply(s, step).mem.words;
    QueueingShows(s.mem.words, words', s.prom, s.native.cursor);
    SameQueueShows(s.mem.words, words', s.prom, s.prom);
  }

  lemma ReadShows(s: State)
    requires Inv(s) && InRange(s) && s.prod.js.CheckDelimiter? && LostShows(s.mem.words, s.prom)
    ensures LostShows(s.mem.words, DoReadDelimiter(s).prom)
  {
    hide Shape, ProducerInv, PublishedWords, Consumer, Delimiters, Statuses, HandOff, WorkerLocals,
         CommitMarks, History, Queue, Walked, Settled, LostShows, QueueCommit;
    FreeSlotFacts(s.mem, s.native);
    AllKept(s.mem.words);
    QueueingShows(s.mem.words, s.mem.words, s.prom, s.native.cursor);
  }

  lemma AllKept(words: seq<Word>)
    ensures KeepsAll(words, words)
  {
  }

  lemma SettleShows(s: State)
    requires Inv(s) && InRange(s) && s.prod.js.CheckTxn? && LostShows(s.mem.words, s.prom)
    ensures LostShows(s.mem.words, DoSettleTxn(s).prom)
  {
    hide Shape, ProducerInv, PublishedWords, Consumer, Delimiters, Statuses, HandOff, WorkerLocals,
         CommitMarks, History, Queue, Walked, Settled, LostShows;
    if s.prom.txnResolution.Some? {
      CursorFits(s);
      SettlingShows(s.mem.words, s.mem.kinds, s.mem.depths, s.prom, s.native.cursor,
                    !s.mem.words[s.prom.txnResolution.value].hadError);
    }
  }

  lemma CursorFits(s: State)
    requires Consumer(s.mem.words, s.mem.kinds, s.mem.depths, s.native.worker, s.native.cursor)
    ensures s.native.cursor <= |s.mem.kinds|
  {
  }

  lemma {:induction false} RunShows(run: seq<State>, i: nat)
    requires ValidRun(run) && i < |run|
    ensures LostShows(run[i].mem.words, run[i].prom)
  {
    hide Inv, Apply, Enabled, InRange, Transition, LostShows;
    if i == 0 {
      assert LostShows(Init().mem.words, Init().prom) by {
        NothingLost();
      }
    } else {
      RunShows(run, i - 1);
      var step := StepOf(run, i - 1);
      StepShows(run[i - 1], step);
    }
  }

  lemma NothingLost()
    ensures LostShows(Init().mem.words, Init().prom)
  {
  }

  /** Once every queued transaction has been settled, all promises were settled by the delimiter of
      their own transaction if and only if no pending link was ever overwritten, that is, no delimiter
      was queued while two others were still outstanding. */
  lemma OwnTransactionExactlyWhen(run: seq<State>, i: nat)
    requires ValidRun(run) && i < |run| && run[i].prom.txnResolution.None?
    ensures (forall k: nat :: k < |run[i].prom.settled| ==>
               NoDelimiterBetween(run[i].mem.words, run[i].prom.settled[k].index, run[i].prom.settled[k].delim))
            <==> !run[i].prom.lost
  {
    var s := run[i];
    RunShows(run, i);
    if !s.prom.lost {
      forall k: nat | k < |s.prom.settled|
        ensures NoDelimiterBetween(s.mem.words, s.prom.settled[k].index, s.prom.settled[k].delim)
      {
        SettledByOwnTransaction(run, i, k);
      }
    } else {
      var k: nat, j: nat :| k < |s.prom.settled| && s.prom.settled[k].index < j < s.prom.settled[k].delim
                            && j < |s.mem.words| && s.mem.words[j].delimiter;
      assert !NoDelimiterBetween(s.mem.words, s.prom.settled[k].index, s.prom.settled[k].delim);
    }
  }
}
