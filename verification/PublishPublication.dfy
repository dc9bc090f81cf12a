/** The steps that publish a word, and the JavaScript steps that touch no word, keep the invariant. */
module PublishPublication {
  import opened Options
  import opened FlagWord
  import opened PublishProtocol
  import opened PublishInvariant
  import opened PublishAllocation

  // ------------------------------------------------------------ publishing

  /** `b` is `a` with the instruction in it; only the waiting bit may differ otherwise. */
  ghost predicate PublishedFrom(a: Word, b: Word, k: Kind) {
    && a.op.NoInstruction? && b.op == Published(k)
    && b.delimiter == a.delimiter && b.finished == a.finished
    && b.failedCondition == a.failedCondition
    && b.committed == a.committed && b.hadError == a.hadError
  }

  lemma PublishAdvances(words: seq<Word>, i: nat, word: Word, k: Kind, cursor: nat)
    requires i < |words| && PublishedFrom(words[i], word, k)
    ensures Advances(words, words[i := word], cursor)
  {
  }

  lemma StatusesPublish(words: seq<Word>, kinds: seq<Kind>, w: Worker, cursor: nat, i: nat, word: Word)
    requires Statuses(words, kinds, w, cursor) && i < |kinds| && PublishedFrom(words[i], word, kinds[i])
    ensures Statuses(words[i := word], kinds, w, cursor)
  {
  }

  lemma PublishedWordsPublish(words: seq<Word>, kinds: seq<Kind>, pending: set<nat>, i: nat, word: Word)
    requires PublishedWords(words, kinds, pending) && i < |kinds| && word.op == Published(kinds[i])
    ensures PublishedWords(words[i := word], kinds, pending - {i})
  {
  }

  lemma HandOffPublish(words: seq<Word>, startAddress: Option<nat>, spawned: seq<nat>, w: Worker, cursor: nat,
                       i: nat, word: Word, k: Kind, ends: bool)
    requires HandOff(words, startAddress, spawned, w, cursor)
    requires i < |words| && PublishedFrom(words[i], word, k)
    requires ends == words[i].delimiter && (ends ==> i == cursor)
    ensures HandOff(words[i := word], if ends && startAddress.None? then Some(i) else startAddress, spawned, w, cursor)
    ensures ends ==> startAddress.None? && spawned == [] && !Running(w)
  {
  }

  lemma WorkerLocalsPublish(words: seq<Word>, kinds: seq<Kind>, w: Worker, cursor: nat, i: nat, word: Word, k: Kind)
    requires WorkerLocals(words, kinds, w, cursor)
    requires i < |words| && PublishedFrom(words[i], word, k)
    requires w.Merging? ==> i != cursor
    ensures WorkerLocals(words[i := word], kinds, w, cursor)
  {
  }

  /** Queueing the word under the cursor as the next commit. */
  lemma QueueCommitKeeps(words: seq<Word>, words': seq<Word>, kinds: seq<Kind>, q: Promises, cursor: nat,
                         settling: bool)
    requires Queue(words, q, cursor) && Walked(words, kinds, q, settling) && Settled(words, kinds, q, cursor)
    requires Advances(words, words', cursor)
    requires words'[cursor].delimiter && !words[cursor].finished
    requires forall j :: 0 <= j < |words| && j != cursor ==> words'[j] == words[j]
    ensures Queue(words', QueueCommit(q, cursor), cursor)
    ensures Walked(words', kinds, QueueCommit(q, cursor), false)
    ensures Settled(words', kinds, QueueCommit(q, cursor), cursor)
  {
    var q' := QueueCommit(q, cursor);
    WalkedAdvances(words, words', kinds, q, settling, cursor);
    SettledAdvances(words, words', kinds, q, cursor);
    forall k | 0 <= k < |q'.settled|
      ensures SettledBy(words', q'.settled[k], q'.lost)
    {
      assert SettledBy(words', q.settled[k], q.lost);
    }
  }

  lemma QueuePublish(words: seq<Word>, kinds: seq<Kind>, q: Promises, cursor: nat, settling: bool,
                     i: nat, word: Word, ends: bool)
    requires Queue(words, q, cursor) && Walked(words, kinds, q, settling) && Settled(words, kinds, q, cursor)
    requires i < |kinds| && PublishedFrom(words[i], word, kinds[i]) && !words[i].finished
    requires ends == words[i].delimiter && (ends ==> i == cursor)
    ensures var q' := if ends then QueueCommit(q, i) else q;
            && Queue(words[i := word], q', cursor) && Walked(words[i := word], kinds, q', false)
            && Settled(words[i := word], kinds, q', cursor)
  {
    var words' := words[i := word];
    PublishAdvances(words, i, word, kinds[i], cursor);
    if ends {
      QueueCommitKeeps(words, words', kinds, q, cursor, settling);
    } else {
      QueueAdvances(words, words', q, cursor);
      WalkedAdvances(words, words', kinds, q, settling, cursor);
      SettledAdvances(words, words', kinds, q, cursor);
    }
  }

  lemma ProducerPublishes(kinds: seq<Kind>, depths: seq<int>, p: Producer, ends: bool)
    requires ProducerInv(kinds, depths, p) && Publishing(p.js)
    ensures var p' := AfterPublish(p, p.js.at, ends);
            ProducerInv(kinds, depths, p') && Pending(p') == Pending(p) - {p.js.at}
  {
  }

  /** Where the word being published can be, and what can be on it. */
  lemma PublishFacts(m: Stream, p: Producer, q: Promises, n: Native)
    requires Publishing(p.js) && ProducerInv(m.kinds, m.depths, p)
    requires PublishedWords(m.words, m.kinds, Pending(p))
    requires Consumer(m.words, m.kinds, m.depths, n.worker, n.cursor)
    requires Delimiters(m.words, m.kinds, m.depths, n.cursor)
    requires Statuses(m.words, m.kinds, n.worker, n.cursor)
    ensures |m.words| == |m.kinds| + 1 && p.js.at < |m.kinds| && p.js.at >= n.cursor
    ensures m.words[p.js.at].op.NoInstruction? && !m.words[p.js.at].finished
    ensures m.words[p.js.at].delimiter ==> p.js.at == n.cursor && !m.kinds[p.js.at].BlockEnd?
    ensures p.js.StoreFlags? ==> Bare(m.words[p.js.at]) && Bare(p.js.seen)
    ensures p.js.ReadStatus? ==> Bare(m.words[p.js.at])
    ensures n.worker.Merging? ==> p.js.at != n.cursor
  {
    assert p.js.at in Pending(p);
  }

  lemma KeepPublish(s: State, status: Word, word: Word)
    requires Inv(s) && InRange(s) && (s.prod.js.OrFlags? || s.prod.js.StoreFlags?)
    requires PublishedFrom(s.mem.words[s.prod.js.at], word, s.mem.kinds[s.prod.js.at])
    requires status.delimiter == s.mem.words[s.prod.js.at].delimiter
    ensures Inv(DoPublish(s, status, word))
  {
    hide Shape, ProducerInv, PublishedWords, Consumer, Delimiters, Statuses, HandOff, WorkerLocals,
         CommitMarks, History, Queue, Walked, Settled;
    var m, p, q, n := s.mem, s.prod, s.prom, s.native;
    PublishFacts(m, p, q, n);
    var i := p.js.at;
    var ends := EndsTransaction(m.kinds[i], status);
    PublishAdvances(m.words, i, word, m.kinds[i], n.cursor);
    ProducerPublishes(m.kinds, m.depths, p, ends);
    PublishedWordsPublish(m.words, m.kinds, Pending(p), i, word);
    var words' := m.words[i := word];
    ShapeAdvances(m, words');
    ConsumerAdvances(m.words, words', m.kinds, m.depths, n.worker, n.cursor);
    DelimitersSame(m.words, words', m.kinds, m.depths, n.cursor);
    StatusesPublish(m.words, m.kinds, n.worker, n.cursor, i, word);
    HandOffPublish(m.words, p.startAddress, n.spawned, n.worker, n.cursor, i, word, m.kinds[i], ends);
    WorkerLocalsPublish(m.words, m.kinds, n.worker, n.cursor, i, word, m.kinds[i]);
    CommitMarksAdvance(m.words, words', n.lingering, n.worker, n.cursor);
    QueuePublish(m.words, m.kinds, q, n.cursor, p.js.CheckTxn?, i, word, ends);
  }

  lemma KeepPublishOr(s: State)
    requires Inv(s) && InRange(s) && s.prod.js.OrFlags?
    ensures var word := s.mem.words[s.prod.js.at];
            Inv(DoPublish(s, word, Or(word, EMPTY.(op := Published(s.mem.kinds[s.prod.js.at])))))
  {
    hide Shape, ProducerInv, PublishedWords, Consumer, Delimiters, Statuses, HandOff, WorkerLocals,
         CommitMarks, History, Queue, Walked, Settled;
    PublishFacts(s.mem, s.prod, s.prom, s.native);
    var i := s.prod.js.at;
    var word := s.mem.words[i];
    KeepPublish(s, word, Or(word, EMPTY.(op := Published(s.mem.kinds[i]))));
  }

  /** A plain store inside a batch: no delimiter can be on the word, so nothing is lost. */
  lemma KeepPublishStore(s: State)
    requires Inv(s) && InRange(s) && s.prod.js.StoreFlags?
    ensures Inv(DoPublish(s, s.prod.js.seen, EMPTY.(op := Published(s.mem.kinds[s.prod.js.at]))))
  {
    hide Shape, ProducerInv, PublishedWords, Consumer, Delimiters, Statuses, HandOff, WorkerLocals,
         CommitMarks, History, Queue, Walked, Settled;
    PublishFacts(s.mem, s.prod, s.prom, s.native);
    var i := s.prod.js.at;
    KeepPublish(s, s.prod.js.seen, EMPTY.(op := Published(s.mem.kinds[i])));
  }

  lemma ReadingStatus(kinds: seq<Kind>, depths: seq<int>, p: Producer, seen: Word)
    requires ProducerInv(kinds, depths, p) && p.js.ReadStatus? && Bare(seen)
    ensures var p' := p.(js := StoreFlags(p.js.at, p.js.start, seen));
            ProducerInv(kinds, depths, p') && Pending(p') == Pending(p)
  {
  }

  lemma KeepPublishRead(s: State)
    requires Inv(s) && InRange(s) && s.prod.js.ReadStatus?
    ensures Inv(s.(prod := s.prod.(js := StoreFlags(s.prod.js.at, s.prod.js.start, s.mem.words[s.prod.js.at]))))
  {
    hide Shape, ProducerInv, PublishedWords, Consumer, Delimiters, Statuses, HandOff, WorkerLocals,
         CommitMarks, History, Queue, Walked, Settled;
    PublishFacts(s.mem, s.prod, s.prom, s.native);
    ReadingStatus(s.mem.kinds, s.mem.depths, s.prod, s.mem.words[s.prod.js.at]);
  }

  lemma PublishingStart(kinds: seq<Kind>, depths: seq<int>, p: Producer)
    requires ProducerInv(kinds, depths, p) && p.js.Ready? && p.pendingStart.Some?
    ensures var p' := p.(js := OrFlags(p.pendingStart.value, None), pendingStart := None);
            ProducerInv(kinds, depths, p') && Pending(p') == Pending(p)
  {
  }

  lemma KeepPublishStartEarly(s: State)
    requires Inv(s) && InRange(s) && s.prod.js.Ready? && s.prod.pendingStart.Some?
    ensures Inv(s.(prod := s.prod.(js := OrFlags(s.prod.pendingStart.value, None), pendingStart := None)))
  {
    hide Shape, ProducerInv, PublishedWords, Consumer, Delimiters, Statuses, HandOff, WorkerLocals,
         CommitMarks, History, Queue, Walked, Settled;
    PublishingStart(s.mem.kinds, s.mem.depths, s.prod);
  }

  /** JavaScript moving between local states that publish nothing. */
  lemma ProducerIdles(kinds: seq<Kind>, depths: seq<int>, p: Producer, js: Js)
    requires ProducerInv(kinds, depths, p) && !Publishing(p.js) && !Publishing(js)
    ensures ProducerInv(kinds, depths, p.(js := js)) && Pending(p.(js := js)) == Pending(p)
  {
  }

  lemma FreeSlotFacts(m: Stream, n: Native)
    requires Consumer(m.words, m.kinds, m.depths, n.worker, n.cursor)
    requires Delimiters(m.words, m.kinds, m.depths, n.cursor)
    requires Statuses(m.words, m.kinds, n.worker, n.cursor)
    ensures |m.words| == |m.kinds| + 1 && n.cursor <= |m.kinds|
    ensures m.words[|m.kinds|].delimiter ==> |m.kinds| == n.cursor && !m.words[n.cursor].finished
    ensures Advances(m.words, m.words, n.cursor)
  {
  }

  lemma WalkedUnsettled(words: seq<Word>, kinds: seq<Kind>, q: Promises)
    requires Walked(words, kinds, q, true)
    ensures Walked(words, kinds, q, false)
  {
  }

  lemma KeepReadDelimiter(s: State)
    requires Inv(s) && InRange(s) && s.prod.js.CheckDelimiter?
    ensures Inv(DoReadDelimiter(s))
  {
    hide Shape, ProducerInv, PublishedWords, Consumer, Delimiters, Statuses, HandOff, WorkerLocals,
         CommitMarks, History, Queue, Walked, Settled;
    var m, here := s.mem, |s.mem.kinds|;
    ProducerIdles(m.kinds, m.depths, s.prod, WalkFinished);
    FreeSlotFacts(m, s.native);
    if m.words[here].delimiter {
      QueueCommitKeeps(m.words, m.words, m.kinds, s.prom, here, false);
    }
  }

  /** The remaining JavaScript steps change nothing another thread looks at. */
  lemma KeepIdle(s: State, js: Js, completions: nat, finishedProgress: bool)
    requires Inv(s) && !Publishing(s.prod.js) && !Publishing(js) && !s.prod.js.CheckTxn? && !js.CheckTxn?
    ensures Inv(s.(prod := s.prod.(js := js),
                   native := s.native.(completions := completions, finishedProgress := finishedProgress)))
  {
    hide Shape, ProducerInv, PublishedWords, Consumer, Delimiters, Statuses, HandOff, WorkerLocals,
         CommitMarks, History, Queue, Walked, Settled;
    ProducerIdles(s.mem.kinds, s.mem.depths, s.prod, js);
  }

  lemma HandOffStarts(words: seq<Word>, startAddress: Option<nat>, spawned: seq<nat>, w: Worker, cursor: nat)
    requires HandOff(words, startAddress, spawned, w, cursor) && startAddress.Some?
    ensures HandOff(words, None, spawned + [startAddress.value], w, cursor)
  {
  }

  lemma ProducerStarts(kinds: seq<Kind>, depths: seq<int>, p: Producer)
    requires ProducerInv(kinds, depths, p)
    ensures ProducerInv(kinds, depths, p.(startAddress := None))
    ensures Pending(p.(startAddress := None)) == Pending(p)
  {
  }

  lemma KeepStartWriting(s: State)
    requires Inv(s) && s.prod.js.Ready? && s.prod.startAddress.Some?
    ensures Inv(s.(native := s.native.(spawned := s.native.spawned + [s.prod.startAddress.value]),
                   prod := s.prod.(startAddress := None)))
  {
    hide Shape, ProducerInv, PublishedWords, Consumer, Delimiters, Statuses, HandOff, WorkerLocals,
         CommitMarks, History, Queue, Walked, Settled;
    ProducerStarts(s.mem.kinds, s.mem.depths, s.prod);
    HandOffStarts(s.mem.words, s.prod.startAddress, s.native.spawned, s.native.worker, s.native.cursor);
  }
}
