/** The promise and worker steps keep the invariant. */
module PublishWorker {
  import opened Options
  import opened FlagWord
  import opened PublishProtocol
  import opened PublishInvariant
  import opened PublishAllocation
  import opened PublishPublication

  // --------------------------------------------------------------- promises

  lemma WalkedStep(words: seq<Word>, kinds: seq<Kind>, q: Promises, cursor: nat)
    requires Walked(words, kinds, q, false) && Queue(words, q, cursor) && Settled(words, kinds, q, cursor)
    requires q.unwritten < |kinds| && (HasStatus(kinds[q.unwritten]) ==> words[q.unwritten].finished)
    ensures var u := q.unwritten;
            var q' := if !HasStatus(kinds[u]) then q.(unwritten := u + 1)
                      else q.(flag := q.flag[u := words[u]], unwritten := u + 1,
                              released := if u in q.isTxn then q.released else q.released + {u});
            Walked(words, kinds, q', false) && Queue(words, q', cursor) && Settled(words, kinds, q', cursor)
  {
  }

  /** When the walk stops, every queued delimiter is at or before the place where it stopped. */
  lemma WalkStops(words: seq<Word>, kinds: seq<Kind>, q: Promises, w: Worker, cursor: nat)
    requires Walked(words, kinds, q, false) && Queue(words, q, cursor) && Statuses(words, kinds, w, cursor)
    requires q.unwritten < |kinds| ==> HasStatus(kinds[q.unwritten]) && !words[q.unwritten].finished
    ensures Walked(words, kinds, q, true)
  {
  }

  lemma KeepWalk(s: State)
    requires Inv(s) && InRange(s) && s.prod.js.WalkFinished?
    ensures Inv(DoWalk(s))
  {
    hide Shape, ProducerInv, PublishedWords, Consumer, Delimiters, Statuses, HandOff, WorkerLocals,
         CommitMarks, History, Queue, Walked, Settled;
    var m, q, u := s.mem, s.prom, s.prom.unwritten;
    ProducerIdles(m.kinds, m.depths, s.prod, CheckTxn);
    if u < |m.kinds| && (HasStatus(m.kinds[u]) ==> m.words[u].finished) {
      WalkedStep(m.words, m.kinds, q, s.native.cursor);
    } else {
      WalkStops(m.words, m.kinds, q, s.native.worker, s.native.cursor);
    }
  }

  lemma IndicesConcat(a: seq<Settlement>, b: seq<Settlement>)
    ensures Indices(a + b) == Indices(a) + Indices(b)
  {
  }

  lemma OneOutcome(words: seq<Word>, kinds: seq<Kind>, q: Promises, i: nat, d: nat, cursor: nat)
    requires Walked(words, kinds, q, true) && Queue(words, q, cursor) && cursor <= |kinds|
    requires q.txnResolution == Some(d) && q.uncommitted <= i < d && HasStatus(kinds[i])
    requires words[d].committed || words[d].hadError
    requires forall j :: 0 <= j < cursor ==> words[j].op.Published?
    ensures SettledBy(words, Settlement(i, OutcomeOf(q.flag, i, !words[d].hadError), d), q.lost)
  {
  }

  /** Settling a range settles each instruction in it once, in stream order ... */
  lemma {:induction false} SettleRangeOrder(kinds: seq<Kind>, flag: map<nat, Word>, lo: nat, hi: nat, d: nat,
                                          committed: bool)
    requires lo <= hi <= |kinds|
    ensures Operations(kinds, lo) + Indices(SettleRange(kinds, flag, lo, hi, d, committed)) == Operations(kinds, hi)
    decreases hi
  {
    if lo < hi {
      var before := SettleRange(kinds, flag, lo, hi - 1, d, committed);
      SettleRangeOrder(kinds, flag, lo, hi - 1, d, committed);
      if HasStatus(kinds[hi - 1]) {
        var last := Settlement(hi - 1, OutcomeOf(flag, hi - 1, committed), d);
        IndicesConcat(before, [last]);
        assert Indices([last]) == [hi - 1];
      }
    } else {
      assert Indices([]) == [];
    }
  }

  /** ... and by the recorded flag of each. */
  lemma {:induction false} SettleRangeMembers(kinds: seq<Kind>, flag: map<nat, Word>, lo: nat, hi: nat, d: nat,
                                          committed: bool)
    requires hi <= |kinds|
    ensures forall e <- SettleRange(kinds, flag, lo, hi, d, committed) ::
              lo <= e.index < hi && HasStatus(kinds[e.index]) && e.delim == d
              && e.outcome == OutcomeOf(flag, e.index, committed)
    decreases hi
  {
    if lo < hi {
      SettleRangeMembers(kinds, flag, lo, hi - 1, d, committed);
    }
  }

  lemma SettleRangeFromStart(kinds: seq<Kind>, flag: map<nat, Word>, hi: nat, d: nat, committed: bool)
    requires hi <= |kinds|
    ensures SettleRange(kinds, flag, -1, hi, d, committed) == SettleRange(kinds, flag, 0, hi, d, committed)
  {
    if hi > 0 {
      SettleRangeFromStart(kinds, flag, hi - 1, d, committed);
    }
  }

  lemma SettledStep(words: seq<Word>, kinds: seq<Kind>, q: Promises, cursor: nat)
    requires Walked(words, kinds, q, true) && Queue(words, q, cursor) && Settled(words, kinds, q, cursor)
    requires q.txnResolution.Some? && (words[q.txnResolution.value].committed || words[q.txnResolution.value].hadError)
    requires forall i :: 0 <= i < |words| ==> !(words[i].committed && words[i].hadError)
    requires forall j :: 0 <= j < cursor ==> words[j].op.Published?
    ensures var d := q.txnResolution.value;
            var q' := q.(settled := q.settled + SettleRange(kinds, q.flag, q.uncommitted, d, d, !words[d].hadError),
                         uncommitted := d, txnResolution := q.nextTxn, nextTxn := None);
            Walked(words, kinds, q', true) && Queue(words, q', cursor) && Settled(words, kinds, q', cursor)
  {
    var d := q.txnResolution.value;
    var ok := !words[d].hadError;
    var lo := if q.uncommitted < 0 then 0 else q.uncommitted;
    var e := SettleRange(kinds, q.flag, q.uncommitted, d, d, ok);
    if q.uncommitted < 0 {
      SettleRangeFromStart(kinds, q.flag, d, d, ok);
    }
    SettleRangeOrder(kinds, q.flag, lo, d, d, ok);
    SettleRangeMembers(kinds, q.flag, lo, d, d, ok);
    IndicesConcat(q.settled, e);
    forall k | 0 <= k < |e|
      ensures SettledBy(words, e[k], q.lost)
    {
      assert e[k] in e;
      OneOutcome(words, kinds, q, e[k].index, d, cursor);
      assert e[k] == Settlement(e[k].index, OutcomeOf(q.flag, e[k].index, ok), d);
    }
  }

  lemma TxnFacts(words: seq<Word>, kinds: seq<Kind>, depths: seq<int>, q: Promises, n: Native)
    requires Consumer(words, kinds, depths, n.worker, n.cursor) && Delimiters(words, kinds, depths, n.cursor)
    requires Queue(words, q, n.cursor)
    ensures forall i :: 0 <= i < |words| ==> !(words[i].committed && words[i].hadError)
    ensures forall j :: 0 <= j < n.cursor && j < |words| ==> words[j].op.Published?
    ensures q.txnResolution.Some? ==> q.txnResolution.value < |words|
    ensures n.cursor < |words|
  {
  }

  lemma KeepSettleTxn(s: State)
    requires Inv(s) && InRange(s) && s.prod.js.CheckTxn?
    ensures Inv(DoSettleTxn(s))
  {
    hide Shape, ProducerInv, PublishedWords, Consumer, Delimiters, Statuses, HandOff, WorkerLocals,
         CommitMarks, History, Queue, Walked, Settled;
    var m, q := s.mem, s.prom;
    ProducerIdles(m.kinds, m.depths, s.prod, Ready);
    TxnFacts(m.words, m.kinds, m.depths, q, s.native);
    WalkedUnsettled(m.words, m.kinds, q);
    if q.txnResolution.Some? && (m.words[q.txnResolution.value].hadError || m.words[q.txnResolution.value].committed) {
      SettledStep(m.words, m.kinds, q, s.native.cursor);
    }
  }

  // ----------------------------------------------------------------- worker

  /** The clauses that mention the worker. */
  ghost predicate WorkerInv(m: Stream, startAddress: Option<nat>, n: Native) {
    && Consumer(m.words, m.kinds, m.depths, n.worker, n.cursor)
    && Delimiters(m.words, m.kinds, m.depths, n.cursor)
    && Statuses(m.words, m.kinds, n.worker, n.cursor)
    && HandOff(m.words, startAddress, n.spawned, n.worker, n.cursor)
    && WorkerLocals(m.words, m.kinds, n.worker, n.cursor)
    && CommitMarks(m.words, n.lingering, n.worker, n.cursor)
    && History(m.kinds, m.depths, n.worker, n.cursor, n.log, n.commits)
  }

  /** A worker step that leaves the words alone only has to keep the worker clauses. */
  lemma KeepNative(s: State, n: Native)
    requires Inv(s) && WorkerInv(s.mem, s.prod.startAddress, n) && n.cursor == s.native.cursor
    ensures Inv(s.(native := n))
  {
    hide Shape, ProducerInv, PublishedWords, Consumer, Delimiters, Statuses, HandOff, WorkerLocals,
         CommitMarks, History, Queue, Walked, Settled;
  }

  lemma WorkerInvOf(s: State)
    requires Inv(s)
    ensures WorkerInv(s.mem, s.prod.startAddress, s.native)
    ensures |s.mem.words| == |s.mem.kinds| + 1 && Shape(s.mem)
    ensures PublishedWords(s.mem.words, s.mem.kinds, Pending(s.prod))
    ensures ProducerInv(s.mem.kinds, s.mem.depths, s.prod)
    ensures Running(s.native.worker) ==> s.native.worker.pos == s.native.cursor <= |s.mem.kinds|
  {
  }

  lemma AcquireWorker(m: Stream, startAddress: Option<nat>, n: Native)
    requires WorkerInv(m, startAddress, n) && n.worker.NoWorker? && n.spawned != []
    ensures WorkerInv(m, startAddress, DoAcquire(n)) && DoAcquire(n).cursor == n.cursor
  {
  }

  lemma KeepAcquire(s: State)
    requires Inv(s) && s.native.worker.NoWorker? && s.native.spawned != []
    ensures Inv(s.(native := DoAcquire(s.native)))
  {
    WorkerInvOf(s);
    hide Shape, ProducerInv, PublishedWords, Consumer, Delimiters, Statuses, HandOff, WorkerLocals,
         CommitMarks, History, Queue, Walked, Settled;
    AcquireWorker(s.mem, s.prod.startAddress, s.native);
    KeepNative(s, DoAcquire(s.native));
  }

  lemma LoadWorker(m: Stream, startAddress: Option<nat>, n: Native, pending: set<nat>)
    requires WorkerInv(m, startAddress, n) && n.worker.Loading? && PublishedWords(m.words, m.kinds, pending)
    requires n.worker.pos < |m.words|
    ensures var w := n.worker;
            WorkerInv(m, startAddress, n.(worker := Loaded(w.pos, w.depth, w.overlapped, m.words[w.pos])))
  {
  }

  lemma KeepLoad(s: State)
    requires Inv(s) && InRange(s) && s.native.worker.Loading?
    ensures var w := s.native.worker;
            Inv(s.(native := s.native.(worker := Loaded(w.pos, w.depth, w.overlapped, s.mem.words[w.pos]))))
  {
    WorkerInvOf(s);
    hide Shape, ProducerInv, PublishedWords, Consumer, Delimiters, Statuses, HandOff, WorkerLocals,
         CommitMarks, History, Queue, Walked, Settled;
    var w := s.native.worker;
    LoadWorker(s.mem, s.prod.startAddress, s.native, Pending(s.prod));
    KeepNative(s, s.native.(worker := Loaded(w.pos, w.depth, w.overlapped, s.mem.words[w.pos])));
  }

  /** Going back to look at the same word again, after a failed compare-and-swap or a wake-up. */
  lemma RetryWorker(m: Stream, startAddress: Option<nat>, n: Native, overlapped: bool)
    requires WorkerInv(m, startAddress, n)
    requires (n.worker.Loaded? && overlapped == n.worker.overlapped) || (n.worker.Waiting? && !overlapped)
    ensures WorkerInv(m, startAddress, n.(worker := Loading(n.worker.pos, n.worker.depth, overlapped)))
  {
  }

  lemma KeepRetry(s: State, overlapped: bool)
    requires Inv(s)
    requires var w := s.native.worker;
             (w.Loaded? && overlapped == w.overlapped) || (w.Waiting? && !overlapped)
    ensures var w := s.native.worker;
            Inv(s.(native := s.native.(worker := Loading(w.pos, w.depth, overlapped))))
  {
    WorkerInvOf(s);
    hide Shape, ProducerInv, PublishedWords, Consumer, Delimiters, Statuses, HandOff, WorkerLocals,
         CommitMarks, History, Queue, Walked, Settled;
    var w := s.native.worker;
    RetryWorker(s.mem, s.prod.startAddress, s.native, overlapped);
    KeepNative(s, s.native.(worker := Loading(w.pos, w.depth, overlapped)));
  }

  /** A successful compare-and-swap that announces a waiting worker ... */
  lemma CasWaitingWorker(m: Stream, startAddress: Option<nat>, n: Native)
    requires WorkerInv(m, startAddress, n) && n.worker.Loaded? && n.worker.flags.op.NoInstruction?
    requires n.cursor < |m.words| && m.words[n.cursor] == n.worker.flags
    ensures var words' := m.words[n.cursor := WAITING_WORD];
            && WorkerInv(m.(words := words'), startAddress, n.(worker := Waiting(n.worker.pos, n.worker.depth)))
            && Advances(m.words, words', n.cursor)
  {
  }

  /** ... and one that ends the transaction at a free or still unpublished word. */
  lemma CasDelimiterWorker(m: Stream, startAddress: Option<nat>, n: Native)
    requires WorkerInv(m, startAddress, n) && n.worker.Loaded? && n.worker.flags.op.NoInstruction?
    requires n.cursor < |m.words| && m.words[n.cursor] == n.worker.flags && n.worker.depth == 0
    requires n.cursor < |m.kinds| ==> HasStatus(m.kinds[n.cursor])
    ensures var words' := m.words[n.cursor := DELIMITER_WORD];
            && WorkerInv(m.(words := words'), startAddress, n.(worker := Committing(n.worker.pos)))
            && Advances(m.words, words', n.cursor)
  {
  }

  /** At depth 0 the next unpublished word is neither a block end nor a jump. */
  lemma UnpublishedHasStatus(m: Stream, p: Producer, startAddress: Option<nat>, n: Native)
    requires Shape(m) && ProducerInv(m.kinds, m.depths, p) && PublishedWords(m.words, m.kinds, Pending(p))
    requires WorkerInv(m, startAddress, n) && n.worker.Loaded? && n.worker.depth == 0
    requires n.cursor < |m.kinds| && m.words[n.cursor].op.NoInstruction?
    ensures HasStatus(m.kinds[n.cursor])
  {
    assert n.cursor in Pending(p);
    assert m.depths[n.cursor + 1] == m.depths[n.cursor] + Delta(m.kinds[n.cursor]);
  }

  lemma KeepCas(s: State, word: Word, next: Worker)
    requires Inv(s) && InRange(s) && s.native.worker.Loaded? && s.native.worker.flags.op.NoInstruction?
    requires var w := s.native.worker;
      || (word == WAITING_WORD && next == Waiting(w.pos, w.depth))
      || (word == DELIMITER_WORD && next == Committing(w.pos) && w.depth == 0)
    ensures Inv(DoCas(s, word, next))
  {
    WorkerInvOf(s);
    hide Shape, ProducerInv, PublishedWords, Consumer, Delimiters, Statuses, HandOff, WorkerLocals,
         CommitMarks, History, Queue, Walked, Settled;
    var m, q, n := s.mem, s.prom, s.native;
    if m.words[n.cursor] == n.worker.flags {
      var words' := m.words[n.cursor := word];
      if word == WAITING_WORD {
        CasWaitingWorker(m, s.prod.startAddress, n);
      } else {
        if n.cursor < |m.kinds| {
          UnpublishedHasStatus(m, s.prod, s.prod.startAddress, n);
        }
        CasDelimiterWorker(m, s.prod.startAddress, n);
      }
      ShapeAdvances(m, words');
      PublishedWordsSame(m.words, words', m.kinds, Pending(s.prod));
      QueueAdvances(m.words, words', q, n.cursor);
      WalkedAdvances(m.words, words', m.kinds, q, s.prod.js.CheckTxn?, n.cursor);
      SettledAdvances(m.words, words', m.kinds, q, n.cursor);
    } else {
      KeepRetry(s, n.worker.overlapped);
    }
  }

  lemma InterruptWorker(m: Stream, startAddress: Option<nat>, n: Native)
    requires WorkerInv(m, startAddress, n) && (n.worker.Waiting? || n.worker.AwaitCallbacks?) && n.worker.depth == 0
    ensures WorkerInv(m, startAddress, DoInterrupt(n))
  {
  }

  lemma KeepInterrupt(s: State)
    requires Inv(s) && (s.native.worker.Waiting? || s.native.worker.AwaitCallbacks?) && s.native.worker.depth == 0
    ensures Inv(s.(native := DoInterrupt(s.native)))
  {
    WorkerInvOf(s);
    hide Shape, ProducerInv, PublishedWords, Consumer, Delimiters, Statuses, HandOff, WorkerLocals,
         CommitMarks, History, Queue, Walked, Settled;
    InterruptWorker(s.mem, s.prod.startAddress, s.native);
    KeepNative(s, DoInterrupt(s.native));
  }

  lemma StructuralWorker(m: Stream, startAddress: Option<nat>, n: Native)
    requires WorkerInv(m, startAddress, n) && n.worker.Loaded? && n.worker.flags.op.Published? && Shape(m)
    requires !HasStatus(n.worker.flags.op.kind)
    ensures WorkerInv(m, startAddress, DoStructural(n)) && n.cursor < |m.kinds|
  {
    var c := n.cursor;
    assert m.depths[c + 1] == m.depths[c] + Delta(m.kinds[c]);
  }

  lemma PromisesPassCursor(words: seq<Word>, kinds: seq<Kind>, q: Promises, cursor: nat)
    requires Queue(words, q, cursor) && Settled(words, kinds, q, cursor) && cursor < |kinds| && |words| == |kinds| + 1
    ensures Queue(words, q, cursor + 1) && Settled(words, kinds, q, cursor + 1)
  {
  }

  lemma KeepStructural(s: State)
    requires Inv(s) && s.native.worker.Loaded? && s.native.worker.flags.op.Published?
    requires !HasStatus(s.native.worker.flags.op.kind)
    ensures Inv(s.(native := DoStructural(s.native)))
  {
    WorkerInvOf(s);
    hide Shape, ProducerInv, PublishedWords, Consumer, Delimiters, Statuses, HandOff, WorkerLocals,
         CommitMarks, History, Queue, Walked, Settled;
    StructuralWorker(s.mem, s.prod.startAddress, s.native);
    PromisesPassCursor(s.mem.words, s.mem.kinds, s.prom, s.native.cursor);
  }

  /** Or-ing a status into the executed word. */
  lemma StatusAdvances(words: seq<Word>, cursor: nat, failed: bool)
    requires cursor < |words| && (words[cursor].finished ==> !failed)
    ensures var words' := words[cursor := Or(words[cursor], Status(failed))];
            Advances(words, words', cursor)
            && (forall j :: 0 <= j < |words| ==>
                  words'[j].op == words[j].op && words'[j].delimiter == words[j].delimiter)
  {
  }

  lemma PromisesRecord(s: State, failed: bool)
    requires Inv(s) && s.native.cursor < |s.mem.words|
    requires s.mem.words[s.native.cursor].finished ==> !failed
    ensures var m, n := s.mem, s.native;
            var words' := m.words[n.cursor := Or(m.words[n.cursor], Status(failed))];
            && Shape(m.(words := words'))
            && PublishedWords(words', m.kinds, Pending(s.prod))
            && Queue(words', s.prom, n.cursor)
            && Walked(words', m.kinds, s.prom, s.prod.js.CheckTxn?)
            && Settled(words', m.kinds, s.prom, n.cursor)
  {
    hide Shape, ProducerInv, PublishedWords, Consumer, Delimiters, Statuses, HandOff, WorkerLocals,
         CommitMarks, History, Queue, Walked, Settled;
    var m, q, n := s.mem, s.prom, s.native;
    var words' := m.words[n.cursor := Or(m.words[n.cursor], Status(failed))];
    StatusAdvances(m.words, n.cursor, failed);
    ShapeAdvances(m, words');
    PublishedWordsSame(m.words, words', m.kinds, Pending(s.prod));
    QueueAdvances(m.words, words', q, n.cursor);
    WalkedAdvances(m.words, words', m.kinds, q, s.prod.js.CheckTxn?, n.cursor);
    SettledAdvances(m.words, words', m.kinds, q, n.cursor);
  }

  lemma ExecuteWorker(m: Stream, startAddress: Option<nat>, n: Native, failed: bool)
    requires WorkerInv(m, startAddress, n) && n.worker.Loaded? && n.worker.flags.op.Published? && Shape(m)
    requires HasStatus(n.worker.flags.op.kind)
    ensures var w := n.worker;
            WorkerInv(m, startAddress,
                      n.(log := n.log + [w.pos],
                         finishedProgress := n.finishedProgress && (failed || !w.flags.op.kind.Callback?),
                         worker := Finishing(w.pos, w.depth + Delta(w.flags.op.kind), w.overlapped, failed)))
    ensures n.cursor < |m.kinds| && n.cursor < |m.words| && !m.words[n.cursor].finished
  {
    var c := n.cursor;
    assert m.depths[c + 1] == m.depths[c] + Delta(m.kinds[c]);
  }

  lemma StrictWorker(m: Stream, startAddress: Option<nat>, n: Native)
    requires WorkerInv(m, startAddress, n) && n.worker.Loaded? && n.worker.flags.op.Published? && Shape(m)
    requires n.worker.flags.op.kind.Callback? && n.cursor < |m.words|
    ensures var w := n.worker;
            var words' := m.words[n.cursor := Or(m.words[n.cursor], Status(false))];
            WorkerInv(m.(words := words'), startAddress,
                      n.(log := n.log + [w.pos], finishedProgress := false,
                         worker := AwaitCallbacks(w.pos, w.depth, w.overlapped)))
  {
  }

  lemma KeepExecute(s: State, failed: bool, strict: bool)
    requires Inv(s) && InRange(s) && s.native.worker.Loaded? && s.native.worker.flags.op.Published?
    requires HasStatus(s.native.worker.flags.op.kind)
    requires strict ==> s.native.worker.flags.op.kind.Callback? && !failed
    ensures Inv(DoExecute(s, failed, strict))
  {
    WorkerInvOf(s);
    hide Shape, ProducerInv, PublishedWords, Consumer, Delimiters, Statuses, HandOff, WorkerLocals,
         CommitMarks, History, Queue, Walked, Settled;
    ExecuteWorker(s.mem, s.prod.startAddress, s.native, failed);
    if strict {
      StrictWorker(s.mem, s.prod.startAddress, s.native);
      PromisesRecord(s, false);
    }
  }

  lemma CallbacksDoneWorker(m: Stream, startAddress: Option<nat>, n: Native)
    requires WorkerInv(m, startAddress, n) && n.worker.AwaitCallbacks? && Shape(m)
    ensures var w := n.worker;
            WorkerInv(m, startAddress, n.(worker := Finishing(w.pos, w.depth, w.overlapped, false)))
  {
    assert m.depths[n.cursor + 1] == m.depths[n.cursor] + Delta(m.kinds[n.cursor]);
  }

  lemma KeepCallbacksDone(s: State)
    requires Inv(s) && s.native.worker.AwaitCallbacks?
    ensures var w := s.native.worker;
            Inv(s.(native := s.native.(worker := Finishing(w.pos, w.depth, w.overlapped, false))))
  {
    WorkerInvOf(s);
    hide Shape, ProducerInv, PublishedWords, Consumer, Delimiters, Statuses, HandOff, WorkerLocals,
         CommitMarks, History, Queue, Walked, Settled;
    var w := s.native.worker;
    CallbacksDoneWorker(s.mem, s.prod.startAddress, s.native);
    KeepNative(s, s.native.(worker := Finishing(w.pos, w.depth, w.overlapped, false)));
  }

  lemma ExecutedFacts(m: Stream, startAddress: Option<nat>, n: Native)
    requires WorkerInv(m, startAddress, n) && Executed(n.worker)
    ensures n.cursor < |m.kinds| && |m.words| == |m.kinds| + 1 && !m.words[n.cursor + 1].delimiter
    ensures !n.worker.AwaitCallbacks? && m.words[n.cursor].finished ==> !n.worker.failed
    ensures n.worker.Merging? ==> n.worker.seen == m.words[n.cursor]
  {
  }

  /** Storing the status of the executed word and moving past it. */
  lemma MoveWorker(m: Stream, startAddress: Option<nat>, n: Native)
    requires WorkerInv(m, startAddress, n) && (n.worker.Finishing? || n.worker.Merging?)
    requires Shape(m) && n.cursor < |m.kinds| && !m.words[n.cursor + 1].delimiter
    ensures var words' := m.words[n.cursor := Or(m.words[n.cursor], Status(n.worker.failed))];
            WorkerInv(m.(words := words'), startAddress,
                      n.(worker := Loading(n.cursor + 1, n.worker.depth, false), cursor := n.cursor + 1))
  {
  }

  lemma KeepMovePast(s: State)
    requires Inv(s) && InRange(s) && (s.native.worker.Finishing? || s.native.worker.Merging?)
    ensures var m, n := s.mem, s.native;
            n.cursor < |m.words| && n.worker.pos == n.cursor &&
            var words' := m.words[n.cursor := Or(m.words[n.cursor], Status(n.worker.failed))];
            Inv(s.(mem := m.(words := words'),
                   native := n.(worker := Loading(n.cursor + 1, n.worker.depth, false), cursor := n.cursor + 1)))
  {
    WorkerInvOf(s);
    hide Shape, ProducerInv, PublishedWords, Consumer, Delimiters, Statuses, HandOff, WorkerLocals,
         CommitMarks, History, Queue, Walked, Settled;
    var m, n := s.mem, s.native;
    ExecutedFacts(m, s.prod.startAddress, n);
    MoveWorker(m, s.prod.startAddress, n);
    PromisesRecord(s, n.worker.failed);
    var words' := m.words[n.cursor := Or(m.words[n.cursor], Status(n.worker.failed))];
    PromisesPassCursor(words', m.kinds, s.prom, n.cursor);
  }

  /** The plain status update loads the word first; nothing else touches it until the store. */
  lemma LoadStatusWorker(m: Stream, startAddress: Option<nat>, n: Native)
    requires WorkerInv(m, startAddress, n) && n.worker.Finishing? && !n.worker.overlapped
    requires n.worker.pos == n.cursor < |m.words|
    ensures var w := n.worker;
            WorkerInv(m, startAddress, n.(worker := Merging(w.pos, w.depth, m.words[w.pos], w.failed)))
  {
  }

  lemma KeepStoreStatus(s: State)
    requires Inv(s) && InRange(s) && s.native.worker.Finishing?
    ensures Inv(DoStoreStatus(s))
  {
    WorkerInvOf(s);
    hide Shape, ProducerInv, PublishedWords, Consumer, Delimiters, Statuses, HandOff, WorkerLocals,
         CommitMarks, History, Queue, Walked, Settled;
    var w := s.native.worker;
    if w.overlapped {
      KeepMovePast(s);
    } else {
      LoadStatusWorker(s.mem, s.prod.startAddress, s.native);
      KeepNative(s, s.native.(worker := Merging(w.pos, w.depth, s.mem.words[w.pos], w.failed)));
    }
  }

  lemma KeepMergeStatus(s: State)
    requires Inv(s) && InRange(s) && s.native.worker.Merging?
    ensures Inv(DoMergeStatus(s))
  {
    WorkerInvOf(s);
    hide Shape, ProducerInv, PublishedWords, Consumer, Delimiters, Statuses, HandOff, WorkerLocals,
         CommitMarks, History, Queue, Walked, Settled;
    ExecutedFacts(s.mem, s.prod.startAddress, s.native);
    KeepMovePast(s);
  }

  lemma CommitWorker(m: Stream, startAddress: Option<nat>, n: Native, ok: bool)
    requires WorkerInv(m, startAddress, n) && n.worker.Committing?
    ensures WorkerInv(m, startAddress, DoCommit(n, ok)) && DoCommit(n, ok).cursor == n.cursor
  {
  }

  lemma KeepCommit(s: State, ok: bool)
    requires Inv(s) && s.native.worker.Committing?
    ensures Inv(s.(native := DoCommit(s.native, ok)))
  {
    WorkerInvOf(s);
    hide Shape, ProducerInv, PublishedWords, Consumer, Delimiters, Statuses, HandOff, WorkerLocals,
         CommitMarks, History, Queue, Walked, Settled;
    CommitWorker(s.mem, s.prod.startAddress, s.native, ok);
    KeepNative(s, DoCommit(s.native, ok));
  }

  lemma MarkKeepsMarks(words: seq<Word>, lingering: map<nat, bool>, w: Worker, cursor: nat, d: nat, word: Word)
    requires CommitMarks(words, lingering, w, cursor) && d in lingering && word.delimiter
    ensures CommitMarks(words[d := word], lingering - {d}, w, cursor)
  {
  }

  lemma MarkFacts(words: seq<Word>, kinds: seq<Kind>, depths: seq<int>, n: Native, startAddress: Option<nat>, d: nat)
    requires Consumer(words, kinds, depths, n.worker, n.cursor)
    requires Delimiters(words, kinds, depths, n.cursor)
    requires Statuses(words, kinds, n.worker, n.cursor)
    requires HandOff(words, startAddress, n.spawned, n.worker, n.cursor)
    requires WorkerLocals(words, kinds, n.worker, n.cursor)
    requires CommitMarks(words, n.lingering, n.worker, n.cursor)
    requires d in n.lingering
    ensures d < |words|
    ensures var mark := if n.lingering[d] then EMPTY.(committed := true) else EMPTY.(hadError := true);
            var words' := words[d := Or(words[d], mark)];
            && Advances(words, words', n.cursor)
            && Delimiters(words', kinds, depths, n.cursor)
            && Statuses(words', kinds, n.worker, n.cursor)
            && HandOff(words', startAddress, n.spawned, n.worker, n.cursor)
            && WorkerLocals(words', kinds, n.worker, n.cursor)
            && words'[d].delimiter
            && (forall j :: 0 <= j < |words| ==> words'[j].op == words[j].op)
            && (forall j :: 0 <= j < |words| ==> words'[j].delimiter == words[j].delimiter)
  {
  }

  lemma KeepMarkCommitted(s: State, d: nat)
    requires Inv(s) && InRange(s) && d in s.native.lingering
    ensures Inv(DoMarkCommitted(s, d))
  {
    hide Shape, ProducerInv, PublishedWords, Consumer, Delimiters, Statuses, HandOff, WorkerLocals,
         CommitMarks, History, Queue, Walked, Settled;
    var m, q, n := s.mem, s.prom, s.native;
    MarkFacts(m.words, m.kinds, m.depths, n, s.prod.startAddress, d);
    var words' := DoMarkCommitted(s, d).mem.words;
    ShapeAdvances(m, words');
    PublishedWordsSame(m.words, words', m.kinds, Pending(s.prod));
    ConsumerAdvances(m.words, words', m.kinds, m.depths, n.worker, n.cursor);
    QueueAdvances(m.words, words', q, n.cursor);
    WalkedAdvances(m.words, words', m.kinds, q, s.prod.js.CheckTxn?, n.cursor);
    SettledAdvances(m.words, words', m.kinds, q, n.cursor);
    MarkKeepsMarks(m.words, n.lingering, n.worker, n.cursor, d, words'[d]);
  }
}
